/**
  Engines and their claim-processing tasks, interleaved with each other and with every other caller of
  the store. A task may stop between any two of its steps, as when its process crashes.
 */
module AutomationEngine {
  import opened Outcomes
  import opened AutomationModel
  import opened AutomationRules
  import opened AutomationStore
  import opened AutomationInvariant
  import opened AutomationProgress
  import opened AutomationPreservation
  import opened AutomationClaims
  import opened AutomationRuns
  import opened AutomationSafety
  import opened AutomationCapacity

  /** How far a task processing one claim has come. */
  datatype Phase = Holding | Authorized | RunningTarget

  datatype Process = Process(claim: Claim, phase: Phase)
  {
    function Id(): ExecutionId { claim.item.executionId }

    /** The task holds, or has used, the permission to run the target. */
    predicate MayRun() { !phase.Holding? }
  }

  /** `targetRuns` lists every invocation of a target so far. */
  datatype System = System(store: Store, processes: map<nat, Process>, targetRuns: seq<ExecutionId>)

  datatype Action =
    | Environment(call: Call)
    | Dispatch(request: ClaimRequest, now: Time, tokens: nat -> Token, candidates: seq<WorkKey>, pids: seq<nat>)
    | ExpireInterrupted(pid: nat, now: Time)
    | RejectUnknownTarget(pid: nat, now: Time)
    | RequestStart(pid: nat, executionTimeout: Time, now: Time, startToken: Token)
    | RunTarget(pid: nat)
    | RenewLease(pid: nat, leaseDuration: Time, now: Time)
    | Settle(pid: nat, settlement: Settlement, now: Time)
    | Interrupt(pid: nat, interruptIds: seq<string>, now: Time, uuid: nat)
    | Crash(pid: nat)

  const ExpiredInterrupt := Settlement(TimedOut, None, Some("automation.execution_timeout"), Some("Interrupted execution exceeded its deadline"))
  const UnknownTarget := Settlement(Failed, None, Some("automation.target_not_found"), Some("Execution target is not registered"))

  /** The store call an action makes, if any. */
  function CallOf(system: System, action: Action): Option<Call> {
    match action
    case Environment(call) => Some(call)
    case Dispatch(request, now, tokens, candidates, _) => Some(CallClaimWork(request, now, tokens, candidates))
    case RunTarget(_) | Crash(_) => None
    case _ =>
      if action.pid !in system.processes then None
      else
        var claim := system.processes[action.pid].claim;
        match action
        case ExpireInterrupted(_, now) => Some(CallFinish(claim, ExpiredInterrupt, now))
        case RejectUnknownTarget(_, now) => Some(CallFinish(claim, UnknownTarget, now))
        case RequestStart(_, executionTimeout, now, startToken) => Some(CallAuthorize(claim, executionTimeout, now, startToken))
        case RenewLease(_, leaseDuration, now) => Some(CallRenew(claim, leaseDuration, now))
        case Settle(_, settlement, now) => Some(CallFinish(claim, settlement, now))
        case Interrupt(_, interruptIds, now, uuid) => Some(CallInterrupt(claim, interruptIds, now, uuid))
  }

  predicate InPhase(system: System, pid: nat, phase: Phase) {
    pid in system.processes && system.processes[pid].phase == phase
  }

  /** When the action can be taken. Starts are authorized by engines only. */
  predicate Enabled(system: System, action: Action) {
    && (CallOf(system, action).Some? ==> WellShaped(system.store) && Permitted(system.store, CallOf(system, action).value))
    && match action
       case Environment(call) => !call.CallAuthorize?
       case Dispatch(_, _, _, _, pids) =>
         && (forall i :: 0 <= i < |pids| ==> pids[i] !in system.processes)
         && (forall i, j :: 0 <= i < j < |pids| ==> pids[i] != pids[j])
         && (WellShaped(system.store) && Permitted(system.store, CallOf(system, action).value) ==>
               var reply := Perform(system.store, CallOf(system, action).value).reply;
               reply.ClaimsIssued? ==> |pids| == |reply.claims|)
       case ExpireInterrupted(pid, _) =>
         InPhase(system, pid, Holding) && system.processes[pid].claim.item.kind.ExpireInterrupt?
       case RejectUnknownTarget(_, _) | RequestStart(_, _, _, _) =>
         InPhase(system, action.pid, Holding) && system.processes[action.pid].claim.item.kind.Execute?
       case RunTarget(pid) => InPhase(system, pid, Authorized)
       case RenewLease(_, _, _) | Settle(_, _, _) | Interrupt(_, _, _, _) =>
         InPhase(system, action.pid, Authorized) || InPhase(system, action.pid, RunningTarget)
       case Crash(pid) => pid in system.processes
  }

  function Spawned(claims: seq<Claim>, pids: seq<nat>): map<nat, Process>
    requires |pids| == |claims|
    requires forall i, j :: 0 <= i < j < |pids| ==> pids[i] != pids[j]
  {
    map i | 0 <= i < |pids| :: pids[i] := Process(claims[i], Holding)
  }

  /** The tasks after an action and the reply it received; a refused task raises and ends. */
  function Tasks(system: System, action: Action, reply: Reply): map<nat, Process>
    requires Enabled(system, action)
    requires action.Dispatch? && reply.ClaimsIssued? ==> |action.pids| == |reply.claims|
  {
    match action
    case Environment(_) => system.processes
    case Dispatch(_, _, _, _, pids) =>
      if reply.ClaimsIssued? then system.processes + Spawned(reply.claims, pids) else system.processes
    case RequestStart(pid, _, _, _) =>
      if reply.StartAuthorized? then system.processes[pid := system.processes[pid].(phase := Authorized)]
      else system.processes - {pid}
    case RunTarget(pid) => system.processes[pid := system.processes[pid].(phase := RunningTarget)]
    case RenewLease(pid, _, _) =>
      if reply.ClaimRenewed? then system.processes[pid := system.processes[pid].(claim := reply.claim)]
      else system.processes - {pid}
    case _ => system.processes - {action.pid}
  }

  function Next(system: System, action: Action): System
    requires Enabled(system, action)
  {
    var performed :=
      match CallOf(system, action)
      case Some(call) => Perform(system.store, call)
      case None => Performed(system.store, Done);
    System(performed.store,
           Tasks(system, action, performed.reply),
           if action.RunTarget? then system.targetRuns + [system.processes[action.pid].Id()] else system.targetRuns)
  }

  // ---------------------------------------------------------------- the invariant

  predicate HasStarted(store: Store, id: ExecutionId) {
    id in store.executions && store.executions[id].startAuthorizedAt.Some?
  }

  /** Permissions to run belong to distinct started executions and are spent by running. */
  ghost predicate PermissionsOk(store: Store, processes: map<nat, Process>, targetRuns: seq<ExecutionId>) {
    && (forall pid :: pid in processes && processes[pid].MayRun() ==> HasStarted(store, processes[pid].Id()))
    && (forall pid :: pid in processes && processes[pid].phase.Authorized? ==> processes[pid].Id() !in targetRuns)
    && (forall pid, other ::
          (pid in processes && other in processes && pid != other && processes[pid].MayRun() && processes[other].MayRun())
          ==> processes[pid].Id() != processes[other].Id())
    && (forall r :: r in targetRuns ==> HasStarted(store, r))
    && (forall r, s :: 0 <= r < s < |targetRuns| ==> targetRuns[r] != targetRuns[s])
  }

  ghost predicate SystemInv(system: System) {
    Inv(system.store) && PermissionsOk(system.store, system.processes, system.targetRuns)
  }

  // ---------------------------------------------------------------- preservation

  lemma StartedStays(before: Store, after: Store, id: ExecutionId)
    requires Inv(before) && Evolves(before, after) && HasStarted(before, id)
    ensures HasStarted(after, id)
  {
    hide Inv, Evolves;
    StartsPersist(before, after, id);
  }

  lemma PermissionsStayOk(before: Store, after: Store, processes: map<nat, Process>, targetRuns: seq<ExecutionId>)
    requires Inv(before) && Evolves(before, after) && PermissionsOk(before, processes, targetRuns)
    ensures PermissionsOk(after, processes, targetRuns)
  {
    hide Inv, Evolves, HasStarted;
    forall id | HasStarted(before, id)
      ensures HasStarted(after, id)
    {
      StartedStays(before, after, id);
    }
  }

  /** The processes after an action other than a start or a run hold no new permission. */
  predicate GrantsNothing(before: map<nat, Process>, after: map<nat, Process>) {
    forall pid :: pid in after && after[pid].MayRun() ==>
      pid in before && before[pid].phase == after[pid].phase && before[pid].Id() == after[pid].Id()
  }

  lemma PermissionsOfFewer(store: Store, before: map<nat, Process>, after: map<nat, Process>, targetRuns: seq<ExecutionId>)
    requires PermissionsOk(store, before, targetRuns) && GrantsNothing(before, after)
    ensures PermissionsOk(store, after, targetRuns)
  {
    hide HasStarted;
  }

  lemma StoreStep(system: System, action: Action)
    requires Inv(system.store) && Enabled(system, action)
    ensures Preserves(system.store, Next(system, action).store)
  {
    hide Inv, Evolves, WellShaped, Tasks;
    EvolvesReflexive(system.store);
    if CallOf(system, action).Some? {
      PerformPreserves(system.store, CallOf(system, action).value);
    }
    hide Perform, CallOf, Enabled;
  }

  lemma RenewalKeepsItem(store: Store, call: Call)
    requires WellShaped(store) && Permitted(store, call) && call.CallRenew? && Perform(store, call).reply.ClaimRenewed?
    ensures Perform(store, call).reply.claim.item == call.claim.item
  {
    hide WellShaped;
  }

  lemma MostActionsGrantNothing(system: System, action: Action)
    requires Enabled(system, action) && !action.RequestStart? && !action.RunTarget?
    ensures GrantsNothing(system.processes, Next(system, action).processes)
  {
    if action.RenewLease? {
      var call := CallOf(system, action).value;
      if Perform(system.store, call).reply.ClaimRenewed? {
        RenewalKeepsItem(system.store, call);
      }
    }
    hide Perform, WellShaped, Permitted;
  }

  lemma StartGrantsOne(system: System, action: Action)
    requires SystemInv(system) && Enabled(system, action) && action.RequestStart?
    ensures PermissionsOk(Next(system, action).store, Next(system, action).processes, Next(system, action).targetRuns)
  {
    var call := CallOf(system, action).value;
    var performed := Perform(system.store, call);
    StoreStep(system, action);
    hide Inv, Evolves, WellShaped, Permitted;
    PermissionsStayOk(system.store, performed.store, system.processes, system.targetRuns);
    if performed.reply.StartAuthorized? {
      AuthorizedForOwnExecution(system.store, call);
      StartIsRecorded(system.store, call);
      hide Perform;
      GrantToUnstarted(system, action.pid, performed.store);
    } else {
      hide Perform;
      PermissionsOfFewer(performed.store, system.processes, system.processes - {action.pid}, system.targetRuns);
    }
  }

  lemma AuthorizedForOwnExecution(store: Store, call: Call)
    requires WellShaped(store) && Permitted(store, call) && call.CallAuthorize? && Perform(store, call).reply.StartAuthorized?
    ensures Perform(store, call).reply.execution.id == call.claim.item.executionId
  {
  }

  /** Granting permission to a task whose execution had not started keeps permissions distinct. */
  lemma GrantToUnstarted(system: System, pid: nat, after: Store)
    requires pid in system.processes
    requires PermissionsOk(system.store, system.processes, system.targetRuns)
    requires PermissionsOk(after, system.processes, system.targetRuns)
    requires !HasStarted(system.store, system.processes[pid].Id()) && HasStarted(after, system.processes[pid].Id())
    ensures PermissionsOk(after, system.processes[pid := system.processes[pid].(phase := Authorized)], system.targetRuns)
  {
    hide HasStarted;
  }

  lemma RunSpendsPermission(system: System, pid: nat)
    requires PermissionsOk(system.store, system.processes, system.targetRuns) && InPhase(system, pid, Authorized)
    ensures PermissionsOk(system.store, system.processes[pid := system.processes[pid].(phase := RunningTarget)],
                          system.targetRuns + [system.processes[pid].Id()])
  {
    hide HasStarted;
  }

  lemma NextKeepsSystemInv(system: System, action: Action)
    requires SystemInv(system) && Enabled(system, action)
    ensures SystemInv(Next(system, action))
  {
    hide Inv, Evolves, PermissionsOk, WellShaped;
    StoreStep(system, action);
    if action.RequestStart? {
      StartGrantsOne(system, action);
    } else if action.RunTarget? {
      RunSpendsPermission(system, action.pid);
    } else {
      MostActionsGrantNothing(system, action);
      PermissionsStayOk(system.store, Next(system, action).store, system.processes, system.targetRuns);
      PermissionsOfFewer(Next(system, action).store, system.processes, Next(system, action).processes, system.targetRuns);
    }
    hide Perform, Tasks;
  }

  // ---------------------------------------------------------------- histories

  predicate IsTransition(systems: seq<System>, actions: seq<Action>, i: nat)
    requires |systems| == |actions| + 1 && i < |actions|
  {
    Enabled(systems[i], actions[i]) && systems[i + 1] == Next(systems[i], actions[i])
  }

  /** Any interleaving of any number of engines, clients and crashes, starting from a new store. */
  predicate IsHistory(systems: seq<System>, actions: seq<Action>) {
    && |systems| == |actions| + 1
    && systems[0] == System(Empty(systems[0].store.limits), map[], [])
    && (forall i :: 0 <= i < |actions| ==> IsTransition(systems, actions, i))
  }

  lemma {:induction false} HistoryKeepsInv(systems: seq<System>, actions: seq<Action>, i: nat)
    requires IsHistory(systems, actions) && i < |systems|
    ensures SystemInv(systems[i])
  {
    hide Inv, Next, Enabled;
    if i == 0 {
      EmptySatisfiesInv(systems[0].store.limits);
    } else {
      HistoryKeepsInv(systems, actions, i - 1);
      assert IsTransition(systems, actions, i - 1);
      NextKeepsSystemInv(systems[i - 1], actions[i - 1]);
    }
  }

  /** In every interleaving, with crashes at any point, the target of an execution is invoked at most once. */
  lemma TargetRunsAtMostOnce(systems: seq<System>, actions: seq<Action>, i: nat, r: nat, s: nat)
    requires IsHistory(systems, actions) && i < |systems| && r < s < |systems[i].targetRuns|
    ensures systems[i].targetRuns[r] != systems[i].targetRuns[s]
  {
    HistoryKeepsInv(systems, actions, i);
    hide Inv, Next, Enabled;
  }

  /** No two tasks ever run the target of the same execution. */
  lemma OneTaskRunsAnExecution(systems: seq<System>, actions: seq<Action>, i: nat, pid: nat, other: nat)
    requires IsHistory(systems, actions) && i < |systems| && pid != other
    requires InPhase(systems[i], pid, RunningTarget) && InPhase(systems[i], other, RunningTarget)
    ensures systems[i].processes[pid].Id() != systems[i].processes[other].Id()
  {
    HistoryKeepsInv(systems, actions, i);
    hide Inv, Next, Enabled;
  }

  // ---------------------------------------------------------------- concurrency

  /** Executions of the namespace whose target was ever invoked and whose outcome is still open, whatever became of the worker. */
  function UnsettledTargets(system: System, namespace: string): set<ExecutionId> {
    set id | id in system.targetRuns && id in system.store.executions && id.namespace == namespace
             && !system.store.executions[id].status.IsTerminal()
  }

  predicate ActionClaimsUpTo(action: Action, globalConcurrency: nat) {
    match action
    case Environment(call) => ClaimsUpTo(call, globalConcurrency)
    case Dispatch(request, _, _, _, _) => request.globalConcurrency <= globalConcurrency
    case _ => true
  }

  lemma NextStaysWithin(system: System, action: Action, globalConcurrency: nat)
    requires Inv(system.store) && Enabled(system, action)
    requires WithinLimits(system.store, globalConcurrency) && ActionClaimsUpTo(action, globalConcurrency)
    ensures WithinLimits(Next(system, action).store, globalConcurrency)
  {
    hide Inv, WithinLimits, WellShaped;
    var call := CallOf(system, action);
    if call.Some? {
      assert ClaimsUpTo(call.value, globalConcurrency);
      PerformStaysWithin(system.store, call.value, globalConcurrency);
    }
    hide Perform, Tasks, Permitted;
  }

  lemma {:induction false} HistoryStaysWithin(systems: seq<System>, actions: seq<Action>, i: nat, globalConcurrency: nat)
    requires IsHistory(systems, actions) && i < |systems|
    requires forall k :: 0 <= k < |actions| ==> ActionClaimsUpTo(actions[k], globalConcurrency)
    ensures WithinLimits(systems[i].store, globalConcurrency)
  {
    hide Inv, Next, Enabled;
    if i > 0 {
      HistoryStaysWithin(systems, actions, i - 1, globalConcurrency);
      HistoryKeepsInv(systems, actions, i - 1);
      assert IsTransition(systems, actions, i - 1);
      NextStaysWithin(systems[i - 1], actions[i - 1], globalConcurrency);
    }
  }

  lemma UnsettledTargetsHoldCapacity(system: System, namespace: string)
    requires SystemInv(system)
    ensures UnsettledTargets(system, namespace) <=
            Holders(system.store.executions, system.store.admitted, GlobalScope(namespace))
  {
    hide CountersCountHolders, OccurrencesInStep, WorkResolves, OccurrencesResolve;
    forall id | id in UnsettledTargets(system, namespace)
      ensures id in system.store.admitted
    {
      assert HasStarted(system.store, id);
      assert Consistent(id, RecordOf(system.store, id));
    }
  }

  /**
    In every interleaving of engines that share a global limit, the executions whose target was invoked and
    that have no final outcome, including those whose worker crashed or lost its claim, never exceed that limit.
   */
  lemma UnsettledTargetsFitTheLimit(
    systems: seq<System>, actions: seq<Action>, i: nat, namespace: string, globalConcurrency: nat)
    requires IsHistory(systems, actions) && i < |systems|
    requires forall k :: 0 <= k < |actions| ==> ActionClaimsUpTo(actions[k], globalConcurrency)
    ensures |UnsettledTargets(systems[i], namespace)| <= globalConcurrency
  {
    hide Next, Enabled, RecordsConsistent, OccurrencesInStep, WellShaped, PermissionsOk;
    var store := systems[i].store;
    HistoryKeepsInv(systems, actions, i);
    HistoryStaysWithin(systems, actions, i, globalConcurrency);
    assert ScopeWithinLimit(store, GlobalScope(namespace), globalConcurrency);
    UnsettledTargetsHoldCapacity(systems[i], namespace);
    var running, holders := UnsettledTargets(systems[i], namespace), Holders(store.executions, store.admitted, GlobalScope(namespace));
    assert |holders - running| == |holders| - |running|;
  }
}

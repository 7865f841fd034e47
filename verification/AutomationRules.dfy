/**
  Execution transitions, decided from one snapshot and the store's time. They own no state: the
  store commits the returned snapshot together with the work and capacity changes it names.
 */
module AutomationRules {
  import opened Outcomes
  import opened AutomationModel

  datatype CompleteWork = CompleteNone | CompleteCurrent | CompleteAll

  datatype Transition = Transition(
    execution: Execution,
    completeWork: CompleteWork,
    releaseCapacity: bool,
    deadlineWorkAt: Option<Time>)

  /** The task scope, or the owner scope of a taskless execution. */
  function ExecutionScope(execution: Execution): Scope {
    match execution.taskId
    case Some(taskId) => TaskScope(execution.namespace, taskId)
    case None => OwnerScope(execution.namespace, execution.ownerId)
  }

  function Unchanged(execution: Execution, completeWork: CompleteWork): Transition {
    Transition(execution, completeWork, false, None)
  }

  predicate MaterializationIsCurrent(current: Task, proposed: Task, expectedNextRunAt: Time) {
    && current.nextRunAt == Some(expectedNextRunAt)
    && current.revision == proposed.revision
    && current.status.Enabled?
  }

  function ExpireQueued(execution: Execution, now: Time): Transition {
    Transition(
      execution.(status := TimedOut,
                 finishedAt := Some(now),
                 failureCode := Some("automation.queue_timeout"),
                 failureMessage := Some("Execution exceeded its queue deadline"),
                 updatedAt := now),
      CompleteCurrent, true, None)
  }

  /** The change that makes a due item unclaimable, or None when admission may proceed. */
  function ClaimCandidate(execution: Execution, kind: WorkKind, now: Time): Option<Transition> {
    if kind.Execute? then
      if !execution.status.Queued? then Some(Unchanged(execution, CompleteCurrent))
      else if execution.queueDeadline <= now then Some(ExpireQueued(execution, now))
      else None
    else if !execution.status.Interrupted? then Some(Unchanged(execution, CompleteCurrent))
    else None
  }

  function AuthorizeStart(
    execution: Execution, kind: WorkKind, admitted: bool, now: Time, executionTimeout: Time, startToken: Token
  ): Outcome<Execution, StoreError>
  {
    if !kind.Execute? then Err(ClaimLost)
    else if execution.startAuthorizedAt.Some? then Err(StartAlreadyAuthorized)
    else if !execution.status.Queued? || !admitted then Err(ClaimLost)
    else Ok(execution.(status := Running,
                       startedAt := Some(now),
                       deadline := Some(now + executionTimeout),
                       startAuthorizedAt := Some(now),
                       startToken := Some(startToken),
                       updatedAt := now))
  }

  /** `tuple(dict.fromkeys(values))`: the first occurrence of each value, in order. */
  function Deduplicated(values: seq<string>): (r: seq<string>)
    ensures forall v :: v in r <==> v in values
    ensures forall i, j :: 0 <= i < j < |r| ==> r[i] != r[j]
  {
    if values == [] then []
    else
      var front := Deduplicated(values[..|values| - 1]);
      var last := values[|values| - 1];
      assert values == values[..|values| - 1] + [last];
      if last in front then front else front + [last]
  }

  /** Where a value occurs first. */
  function FirstIndex(values: seq<string>, value: string): (i: nat)
    requires value in values
    ensures i < |values| && values[i] == value && value !in values[..i]
  {
    if values[0] == value then 0
    else
      var rest := FirstIndex(values[1..], value);
      assert values[..rest + 1] == [values[0]] + values[1..][..rest];
      rest + 1
  }

  lemma IsFirst(values: seq<string>, value: string, i: nat)
    requires i < |values| && values[i] == value && value !in values[..i]
    ensures FirstIndex(values, value) == i
  {
    var first := FirstIndex(values, value);
    assert forall k :: 0 <= k < i ==> values[..i][k] == values[k];
    assert forall k :: 0 <= k < first ==> values[..first][k] == values[k];
  }

  /** The kept values stand in the order in which they occur first. */
  lemma {:induction false} DeduplicatedKeepsOrder(values: seq<string>, i: nat, j: nat)
    requires i < j < |Deduplicated(values)|
    ensures FirstIndex(values, Deduplicated(values)[i]) < FirstIndex(values, Deduplicated(values)[j])
  {
    var front, last, kept := values[..|values| - 1], values[|values| - 1], Deduplicated(values);
    var before := Deduplicated(front);
    assert values == front + [last];
    forall v | v in before ensures v in values && FirstIndex(values, v) == FirstIndex(front, v) {
      var b := FirstIndex(front, v);
      assert values[b] == front[b] == v && values[..b] == front[..b];
      IsFirst(values, v, b);
    }
    if j < |before| {
      DeduplicatedKeepsOrder(front, i, j);
    } else {
      assert kept[j] == last && last !in front;
      assert values[..|front|] == front;
      IsFirst(values, last, |front|);
      assert kept[i] == before[i] && before[i] in front;
    }
  }

  function InterruptExecution(
    execution: Execution, interruptIds: seq<string>, now: Time
  ): Outcome<Transition, StoreError>
  {
    if interruptIds == [] then Err(InvalidArgument)
    else if execution.deadline.None? then Err(ClaimLost)
    else Ok(Transition(
              execution.(status := Interrupted, interruptIds := Deduplicated(interruptIds), updatedAt := now),
              CompleteCurrent, false, execution.deadline))
  }

  predicate IsFinishStatus(status: ExecutionStatus) {
    status.IsTerminal() || status.NeedsAttention?
  }

  function FinishExecution(
    execution: Execution, status: ExecutionStatus, now: Time,
    result: Option<Payload>, failureCode: Option<string>, failureMessage: Option<string>
  ): Outcome<Transition, StoreError>
  {
    if !IsFinishStatus(status) then Err(InvalidArgument)
    else Ok(Transition(
              execution.(status := status,
                         result := result,
                         failureCode := failureCode,
                         failureMessage := failureMessage,
                         finishedAt := if status.IsTerminal() then Some(now) else None,
                         updatedAt := now),
              CompleteAll, status.IsTerminal(), None))
  }

  function CancelExecution(execution: Execution, now: Time): Outcome<Transition, StoreError> {
    match execution.status
    case NeedsAttention => Err(ResolutionNotAllowed)
    case Queued | Interrupted =>
      Ok(Transition(execution.(status := Cancelled, finishedAt := Some(now), updatedAt := now),
                    CompleteAll, true, None))
    case Running => Ok(Unchanged(execution.(status := CancelRequested, updatedAt := now), CompleteNone))
    case _ => Ok(Unchanged(execution, CompleteNone))
  }

  function ResolvedStatus(resolution: AttentionResolution): ExecutionStatus {
    match resolution
    case ResolveSucceeded => Succeeded
    case ResolveFailed => Failed
    case ResolveCancelled => Cancelled
  }

  /** `text.strip() == text` for the ASCII whitespace that Python strips. */
  predicate IsStripped(text: string) {
    text != "" ==> !IsSpace(text[0]) && !IsSpace(text[|text| - 1])
  }

  predicate IsSpace(c: char) {
    c == ' ' || '\t' <= c <= '\r' || 28 as char <= c <= 31 as char
  }

  function ResolveExecution(
    execution: Execution, resolution: AttentionResolution, reason: string, now: Time
  ): Outcome<Transition, StoreError>
  {
    if reason == "" || !IsStripped(reason) then Err(InvalidArgument)
    else if !execution.status.NeedsAttention? then Err(ResolutionNotAllowed)
    else
      var status := ResolvedStatus(resolution);
      Ok(Transition(
           execution.(status := status,
                      failureCode := if status.Failed? then Some("automation.explicit_resolution") else execution.failureCode,
                      failureMessage := if status.Failed? then Some(reason) else None,
                      finishedAt := Some(now),
                      updatedAt := now),
           CompleteNone, true, None))
  }

  function RecoverExpiredClaim(execution: Execution, kind: WorkKind, now: Time): Transition {
    if kind.Execute? && execution.startAuthorizedAt.Some? then
      Unchanged(
        execution.(status := NeedsAttention,
                   failureCode := Some("automation.claim_lost_after_start"),
                   failureMessage := Some("Execution ownership expired after start"),
                   updatedAt := now),
        CompleteCurrent)
    else Unchanged(execution, CompleteNone)
  }

  /** The first snapshot of each occurrence not yet persisted, in order. */
  function PendingOccurrences(executions: seq<ScheduledExecution>, existing: set<string>): seq<ScheduledExecution> {
    if executions == [] then []
    else if executions[0].occurrence in existing then PendingOccurrences(executions[1..], existing)
    else [executions[0]] + PendingOccurrences(executions[1..], existing + {executions[0].occurrence})
  }

  /** The selection as a walk that remembers what it has seen. */
  method SelectPending(executions: seq<ScheduledExecution>, existing: set<string>) returns (pending: seq<ScheduledExecution>)
    ensures pending == PendingOccurrences(executions, existing)
  {
    var seen := existing;
    pending := [];
    var i := 0;
    while i < |executions|
      invariant 0 <= i <= |executions|
      invariant pending + PendingOccurrences(executions[i..], seen) == PendingOccurrences(executions, existing)
    {
      assert executions[i..][0] == executions[i] && executions[i..][1..] == executions[i + 1..];
      if executions[i].occurrence !in seen {
        seen := seen + {executions[i].occurrence};
        pending := pending + [executions[i]];
      }
      i := i + 1;
    }
  }

  predicate DistinctOccurrences(executions: seq<ScheduledExecution>) {
    forall i, j :: 0 <= i < j < |executions| ==> executions[i].occurrence != executions[j].occurrence
  }

  /** What is kept comes from the input, is new, and never repeats an occurrence. */
  lemma {:induction false} PendingOccurrencesAreNewAndDistinct(executions: seq<ScheduledExecution>, existing: set<string>)
    ensures
      var pending := PendingOccurrences(executions, existing);
      && DistinctOccurrences(pending)
      && forall i :: 0 <= i < |pending| ==> pending[i] in executions && pending[i].occurrence !in existing
  {
    if executions != [] {
      if executions[0].occurrence in existing {
        PendingOccurrencesAreNewAndDistinct(executions[1..], existing);
      } else {
        var first := executions[0].occurrence;
        PendingOccurrencesAreNewAndDistinct(executions[1..], existing + {first});
        var rest := PendingOccurrences(executions[1..], existing + {first});
        forall i | 0 <= i < |rest|
          ensures rest[i].occurrence != first && rest[i].occurrence !in existing
        {
          assert rest[i].occurrence !in existing + {first};
        }
      }
    }
  }

  /** Every new occurrence is kept, in the form it first appeared. */
  lemma {:induction false} PendingOccurrencesKeepEveryNewOne(
    executions: seq<ScheduledExecution>, existing: set<string>, k: nat)
    requires k < |executions| && executions[k].occurrence !in existing
    requires forall j :: 0 <= j < k ==> executions[j].occurrence != executions[k].occurrence
    ensures executions[k] in PendingOccurrences(executions, existing)
  {
    if k > 0 {
      var first := executions[0].occurrence;
      var seen := if first in existing then existing else existing + {first};
      PendingOccurrencesKeepEveryNewOne(executions[1..], seen, k - 1);
    }
  }
}

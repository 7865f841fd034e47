/**
  Resuming: the client's entries, in any order, become one decision slot per reviewed action. What
  was cancelled stays empty, and that alone decides how the run goes on.
 */
module ReviewDecisions {
  import opened Outcomes
  import opened InterruptReviews

  datatype Entry<P> = Resolved(interruptId: string, payload: P) | Cancelled(interruptId: string, hasPayload: bool)

  datatype Mode = Command | Custom | Abandon

  datatype Translation<D> = Translation(mode: Mode, cancelled: seq<string>, decisions: map<string, seq<Option<D>>>)

  type Pending = map<string, PendingAction>

  /** The number of pending actions of each native interrupt. */
  type Sizes = map<string, nat>

  /** Each action of each group is pending under exactly one public ID. */
  ghost predicate FillsGroups(pending: Pending, sizes: Sizes) {
    && (forall id :: id in pending ==> pending[id].nativeId in sizes && pending[id].index < sizes[pending[id].nativeId])
    && (forall id, other :: id in pending && other in pending && SamePlace(pending[id], pending[other]) ==> id == other)
    && (forall n, k :: n in sizes && 0 <= k < sizes[n] ==> HasPlace(pending, MembersOf(pending, pending.Keys, n), k))
    && (forall n :: n in sizes ==> sizes[n] > 0)
  }

  predicate SamePlace(a: PendingAction, b: PendingAction) {
    a.nativeId == b.nativeId && a.index == b.index
  }

  predicate HasPlace(pending: Pending, members: set<string>, k: nat) {
    exists id :: id in members && id in pending && pending[id].index == k
  }

  /** The pending actions of one group among the given IDs. */
  function MembersOf(pending: Pending, ids: set<string>, n: string): set<string> {
    set id | id in ids && id in pending && pending[id].nativeId == n
  }

  /** Counting the pending actions of a group gives its size. */
  lemma {:induction false} MembersFillGroup(pending: Pending, members: set<string>, n: string, size: nat)
    requires forall id :: id in members ==> id in pending && pending[id].nativeId == n && pending[id].index < size
    requires forall id, other :: id in members && other in members && SamePlace(pending[id], pending[other]) ==> id == other
    requires forall k :: 0 <= k < size ==> HasPlace(pending, members, k)
    ensures |members| == size
    decreases size
  {
    if size == 0 {
      assert members == {};
    } else {
      assert HasPlace(pending, members, size - 1);
      var last :| last in members && last in pending && pending[last].index == size - 1;
      var rest := members - {last};
      forall id | id in rest ensures pending[id].index < size - 1 {
        assert !SamePlace(pending[id], pending[last]);
      }
      forall k | 0 <= k < size - 1 ensures HasPlace(pending, rest, k) {
        assert HasPlace(pending, members, k);
        var id :| id in members && id in pending && pending[id].index == k;
        assert id in rest;
      }
      MembersFillGroup(pending, rest, n, size - 1);
    }
  }

  lemma GroupIsFilled(pending: Pending, sizes: Sizes, n: string)
    requires FillsGroups(pending, sizes) && n in sizes
    ensures |MembersOf(pending, pending.Keys, n)| == sizes[n]
  {
    hide HasPlace;
    MembersFillGroup(pending, MembersOf(pending, pending.Keys, n), n, sizes[n]);
  }

  /** One more ID joins exactly the group it belongs to. */
  lemma MembersGrow(pending: Pending, ids: set<string>, id: string, n: string)
    requires id in pending && id !in ids
    ensures |MembersOf(pending, ids + {id}, n)| == |MembersOf(pending, ids, n)| + if pending[id].nativeId == n then 1 else 0
  {
    if pending[id].nativeId == n {
      assert MembersOf(pending, ids + {id}, n) == MembersOf(pending, ids, n) + {id};
    } else {
      assert MembersOf(pending, ids + {id}, n) == MembersOf(pending, ids, n);
    }
  }

  /** Counts per native interrupt, with no entry for a group without members. */
  ghost predicate AreCounts(pending: Pending, ids: set<string>, counts: Sizes) {
    forall n :: Lookup(counts, n, 0) == |MembersOf(pending, ids, n)| && (n in counts ==> counts[n] > 0)
  }

  /** Count the pending actions per native interrupt. */
  method CountGroups(pending: Pending, ghost sizes: Sizes) returns (counts: Sizes)
    requires FillsGroups(pending, sizes)
    ensures counts == sizes
  {
    hide FillsGroups, AreCounts;
    NoCounts(pending);
    counts := map[];
    var remaining := pending.Keys;
    ghost var seen: set<string> := {};
    while remaining != {}
      invariant remaining <= pending.Keys && seen == pending.Keys - remaining && AreCounts(pending, seen, counts)
      decreases remaining
    {
      var id :| id in remaining;
      var n := pending[id].nativeId;
      CountsGrow(pending, seen, counts, id);
      counts := counts[n := Lookup(counts, n, 0) + 1];
      seen, remaining := seen + {id}, remaining - {id};
    }
    assert seen == pending.Keys;
    CountsAreSizes(pending, sizes, counts);
  }

  lemma NoCounts(pending: Pending)
    ensures AreCounts(pending, {}, map[])
  {
    forall n ensures MembersOf(pending, {}, n) == {} {
    }
  }

  lemma CountsGrow(pending: Pending, ids: set<string>, counts: Sizes, id: string)
    requires AreCounts(pending, ids, counts) && id in pending && id !in ids
    ensures
      var n := pending[id].nativeId;
      AreCounts(pending, ids + {id}, counts[n := Lookup(counts, n, 0) + 1])
  {
    hide MembersOf;
    var m := pending[id].nativeId;
    forall n
      ensures Lookup(counts[m := Lookup(counts, m, 0) + 1], n, 0) == |MembersOf(pending, ids + {id}, n)|
    {
      assert Lookup(counts, n, 0) == |MembersOf(pending, ids, n)|;
      MembersGrow(pending, ids, id, n);
    }
  }

  lemma CountsAreSizes(pending: Pending, sizes: Sizes, counts: Sizes)
    requires FillsGroups(pending, sizes) && AreCounts(pending, pending.Keys, counts)
    ensures counts == sizes
  {
    forall n | n in sizes ensures n in counts && counts[n] == sizes[n] {
      GroupIsFilled(pending, sizes, n);
      assert Lookup(counts, n, 0) == |MembersOf(pending, pending.Keys, n)|;
    }
    forall n | n in counts ensures n in sizes {
      assert Lookup(counts, n, 0) == |MembersOf(pending, pending.Keys, n)|;
      var id :| id in MembersOf(pending, pending.Keys, n);
    }
  }

  // ---------------------------------------------------------------- entries

  /** The entry is for a pending action and decides it, or cancels it without a payload. */
  predicate IsEntryFor<P, D>(entry: Entry<P>, pending: Pending, decide: (P, PendingAction) -> Outcome<D, ResumeError>) {
    && entry.interruptId in pending
    && match entry
       case Cancelled(_, hasPayload) => !hasPayload
       case Resolved(id, payload) => decide(payload, pending[id]).Ok?
  }

  /** Acceptable entries for different actions. */
  ghost predicate AreRead<P, D>(entries: seq<Entry<P>>, pending: Pending, decide: (P, PendingAction) -> Outcome<D, ResumeError>) {
    && (forall i :: 0 <= i < |entries| ==> IsEntryFor(entries[i], pending, decide))
    && (forall i, j :: 0 <= i < j < |entries| ==> entries[i].interruptId != entries[j].interruptId)
  }

  lemma ReadGrows<P, D>(entries: seq<Entry<P>>, pending: Pending, decide: (P, PendingAction) -> Outcome<D, ResumeError>, entry: Entry<P>)
    requires AreRead(entries, pending, decide) && IsEntryFor(entry, pending, decide) && !HasEntry(entries, entry.interruptId)
    ensures AreRead(entries + [entry], pending, decide)
  {
    hide IsEntryFor;
    assert forall i :: 0 <= i < |entries| ==> entries[i] in entries && entries[i].interruptId != entry.interruptId;
  }

  /** Every pending action has exactly one entry, and every entry is acceptable. */
  ghost predicate AreAcceptable<P, D>(entries: seq<Entry<P>>, pending: Pending, decide: (P, PendingAction) -> Outcome<D, ResumeError>) {
    && AreRead(entries, pending, decide)
    && (forall id :: id in pending ==> HasEntry(entries, id))
  }

  ghost predicate HasEntry<P>(entries: seq<Entry<P>>, id: string) {
    exists e :: e in entries && e.interruptId == id
  }

  /** A slot per action, holding the decision of its resolved entry and nothing else. */
  ghost predicate AreDecisions<P, D>(
    decisions: map<string, seq<Option<D>>>, entries: seq<Entry<P>>, pending: Pending, sizes: Sizes,
    decide: (P, PendingAction) -> Outcome<D, ResumeError>)
  {
    && decisions.Keys == sizes.Keys
    && (forall n :: n in sizes ==> |decisions[n]| == sizes[n])
    && (forall id :: id in pending ==>
          && pending[id].nativeId in decisions && pending[id].index < |decisions[pending[id].nativeId]|
          && IsSlotOf(decisions[pending[id].nativeId][pending[id].index], entries, id, pending[id], decide))
  }

  ghost predicate IsSlotOf<P, D>(
    slot: Option<D>, entries: seq<Entry<P>>, id: string, action: PendingAction, decide: (P, PendingAction) -> Outcome<D, ResumeError>)
  {
    match slot
    case Some(d) => exists e :: e in entries && e.Resolved? && e.interruptId == id && decide(e.payload, action) == Ok(d)
    case None => forall e :: e in entries && e.interruptId == id ==> e.Cancelled?
  }

  lemma DecisionsStart<P, D>(pending: Pending, sizes: Sizes, decide: (P, PendingAction) -> Outcome<D, ResumeError>)
    requires FillsGroups(pending, sizes)
    ensures
      var empty: map<string, seq<Option<D>>> := map n | n in sizes :: seq(sizes[n], _ => None);
      AreDecisions(empty, [], pending, sizes, decide)
  {
  }

  lemma DecisionsCancel<P, D>(
    decisions: map<string, seq<Option<D>>>, entries: seq<Entry<P>>, pending: Pending, sizes: Sizes,
    decide: (P, PendingAction) -> Outcome<D, ResumeError>, entry: Entry<P>)
    requires AreDecisions(decisions, entries, pending, sizes, decide) && entry.Cancelled?
    ensures AreDecisions(decisions, entries + [entry], pending, sizes, decide)
  {
    forall id | id in pending
      ensures IsSlotOf(decisions[pending[id].nativeId][pending[id].index], entries + [entry], id, pending[id], decide)
    {
      var slot := decisions[pending[id].nativeId][pending[id].index];
      if slot.Some? {
        var e :| e in entries && e.Resolved? && e.interruptId == id && decide(e.payload, pending[id]) == Ok(slot.value);
        assert e in entries + [entry];
      }
    }
  }

  lemma DecisionsResolve<P, D>(
    decisions: map<string, seq<Option<D>>>, entries: seq<Entry<P>>, pending: Pending, sizes: Sizes,
    decide: (P, PendingAction) -> Outcome<D, ResumeError>, entry: Entry<P>)
    requires FillsGroups(pending, sizes) && AreDecisions(decisions, entries, pending, sizes, decide)
    requires entry.Resolved? && IsEntryFor(entry, pending, decide)
    ensures
      var action := pending[entry.interruptId];
      && action.nativeId in decisions && action.index < |decisions[action.nativeId]|
      && AreDecisions(decisions[action.nativeId := decisions[action.nativeId][action.index := Some(decide(entry.payload, action).value)]],
                      entries + [entry], pending, sizes, decide)
  {
    var action := pending[entry.interruptId];
    var slots := decisions[action.nativeId][action.index := Some(decide(entry.payload, action).value)];
    var updated := decisions[action.nativeId := slots];
    assert entry in entries + [entry];
    forall id | id in pending
      ensures IsSlotOf(updated[pending[id].nativeId][pending[id].index], entries + [entry], id, pending[id], decide)
    {
      if id != entry.interruptId {
        var slot := decisions[pending[id].nativeId][pending[id].index];
        assert updated[pending[id].nativeId][pending[id].index] == slot;
        if slot.Some? {
          var e :| e in entries && e.Resolved? && e.interruptId == id && decide(e.payload, pending[id]) == Ok(slot.value);
          assert e in entries + [entry];
        }
      }
    }
    hide IsSlotOf;
  }

  // ---------------------------------------------------------------- translation

  /** The cancelled entries so far. */
  ghost function CancelledIds<P>(entries: seq<Entry<P>>): set<string> {
    set e | e in entries && e.Cancelled? :: e.interruptId
  }

  /** The cancelled interrupt IDs, in the order of their entries. */
  function CancelledInOrder<P>(entries: seq<Entry<P>>): seq<string> {
    if entries == [] then []
    else
      var last := entries[|entries| - 1];
      CancelledInOrder(entries[..|entries| - 1]) + if last.Cancelled? then [last.interruptId] else []
  }

  /** What became of the entries read so far. */
  datatype Progress<D> = Progress(received: set<string>, cancelled: seq<string>, decisions: map<string, seq<Option<D>>>)

  ghost predicate IsProgress<P, D>(
    progress: Progress<D>, entries: seq<Entry<P>>, pending: Pending, sizes: Sizes, decide: (P, PendingAction) -> Outcome<D, ResumeError>)
  {
    && AreDecisions(progress.decisions, entries, pending, sizes, decide)
    && (forall id :: id in progress.received <==> HasEntry(entries, id))
    && progress.received <= pending.Keys
    && progress.cancelled == CancelledInOrder(entries)
    && |progress.cancelled| == |CancelledIds(entries)|
    && AreRead(entries, pending, decide)
  }

  /** Read one entry; the ones before it are already in the slots. */
  method ReadEntry<P, D>(
    progress: Progress<D>, entry: Entry<P>, pending: Pending, decide: (P, PendingAction) -> Outcome<D, ResumeError>,
    ghost entries: seq<Entry<P>>, ghost sizes: Sizes
  ) returns (r: Outcome<Progress<D>, ResumeError>)
    requires FillsGroups(pending, sizes) && IsProgress(progress, entries, pending, sizes, decide)
    ensures r.Ok? <==> IsEntryFor(entry, pending, decide) && !HasEntry(entries, entry.interruptId)
    ensures r.Ok? ==> IsProgress(r.value, entries + [entry], pending, sizes, decide)
  {
    hide FillsGroups, AreDecisions, CancelledIds, HasEntry;
    if entry.interruptId in progress.received {
      return Err(DuplicateEntry);
    }
    if entry.interruptId !in pending {
      return Err(UnknownEntry);
    }
    var action := pending[entry.interruptId];
    match entry {
      case Cancelled(id, hasPayload) =>
        if hasPayload {
          return Err(InvalidPayload);
        }
        DecisionsCancel(progress.decisions, entries, pending, sizes, decide, entry);
        ProgressGrows(progress, entries, pending, sizes, decide, entry, progress.decisions);
        return Ok(Progress(progress.received + {id}, progress.cancelled + [id], progress.decisions));
      case Resolved(id, payload) =>
        var decided := decide(payload, action);
        if decided.Err? {
          return Err(decided.error);
        }
        DecisionsResolve(progress.decisions, entries, pending, sizes, decide, entry);
        var slots := progress.decisions[action.nativeId][action.index := Some(decided.value)];
        ProgressGrows(progress, entries, pending, sizes, decide, entry, progress.decisions[action.nativeId := slots]);
        return Ok(Progress(progress.received + {id}, progress.cancelled, progress.decisions[action.nativeId := slots]));
    }
  }

  lemma ProgressGrows<P, D>(
    progress: Progress<D>, entries: seq<Entry<P>>, pending: Pending, sizes: Sizes, decide: (P, PendingAction) -> Outcome<D, ResumeError>,
    entry: Entry<P>, decisions: map<string, seq<Option<D>>>)
    requires IsProgress(progress, entries, pending, sizes, decide)
    requires IsEntryFor(entry, pending, decide) && entry.interruptId !in progress.received
    requires AreDecisions(decisions, entries + [entry], pending, sizes, decide)
    ensures
      var cancelled := if entry.Cancelled? then progress.cancelled + [entry.interruptId] else progress.cancelled;
      IsProgress(Progress(progress.received + {entry.interruptId}, cancelled, decisions), entries + [entry], pending, sizes, decide)
  {
    hide AreDecisions, CancelledIds, HasEntry, AreRead;
    EntriesGrow(entries, entry);
    CancelledGrow(entries, entry);
    ReadGrows(entries, pending, decide, entry);
    assert (entries + [entry])[..|entries|] == entries;
  }

  lemma CancelledGrow<P>(entries: seq<Entry<P>>, entry: Entry<P>)
    requires !HasEntry(entries, entry.interruptId)
    ensures |CancelledIds(entries + [entry])| == |CancelledIds(entries)| + if entry.Cancelled? then 1 else 0
  {
    hide CancelledIds, HasEntry;
    EntriesGrow(entries, entry);
    var before, after := CancelledIds(entries), CancelledIds(entries + [entry]);
    assert !entry.Cancelled? ==> after == before;
  }

  lemma EntriesGrow<P>(entries: seq<Entry<P>>, entry: Entry<P>)
    ensures forall id :: HasEntry(entries + [entry], id) <==> HasEntry(entries, id) || id == entry.interruptId
    ensures CancelledIds(entries + [entry]) == CancelledIds(entries) + if entry.Cancelled? then {entry.interruptId} else {}
    ensures !HasEntry(entries, entry.interruptId) ==> entry.interruptId !in CancelledIds(entries)
    ensures !HasEntry(entries, entry.interruptId) ==> forall i :: 0 <= i < |entries| ==> entries[i].interruptId != entry.interruptId
  {
    var all := entries + [entry];
    forall id ensures HasEntry(all, id) <==> HasEntry(entries, id) || id == entry.interruptId {
      if HasEntry(entries, id) {
        var e :| e in entries && e.interruptId == id;
        assert e in all;
      }
      assert entry in all;
    }
    forall id | id in CancelledIds(entries) ensures id in CancelledIds(all) && HasEntry(entries, id) {
      var e :| e in entries && e.Cancelled? && e.interruptId == id;
      assert e in all;
    }
    assert entry in all;
  }

  /** All entries cancelled, none, or some. */
  function ModeOf(cancelled: nat, pending: nat): Mode {
    if cancelled > 0 && cancelled == pending then Abandon else if cancelled > 0 then Custom else Command
  }

  /** Translate the client's entries. */
  method Translate<P, D>(
    entries: seq<Entry<P>>, pending: Pending, decide: (P, PendingAction) -> Outcome<D, ResumeError>, ghost sizes: Sizes
  ) returns (r: Outcome<Translation<D>, ResumeError>)
    requires FillsGroups(pending, sizes)
    ensures r.Ok? <==> pending != map[] && AreAcceptable(entries, pending, decide)
    ensures r.Ok? ==> AreDecisions(r.value.decisions, entries, pending, sizes, decide) && r.value.cancelled == CancelledInOrder(entries)
    ensures r.Ok? ==> (r.value.mode == Abandon <==> forall e :: e in entries ==> e.Cancelled?)
    ensures r.Ok? ==> (r.value.mode == Command <==> forall e :: e in entries ==> e.Resolved?)
    ensures r.Ok? && r.value.mode == Command ==>
              forall n, k :: n in r.value.decisions && 0 <= k < |r.value.decisions[n]| ==> r.value.decisions[n][k].Some?
  {
    hide FillsGroups, AreDecisions, IsEntryFor;
    if pending == map[] {
      return Err(NoPending);
    }
    var counts := CountGroups(pending, sizes);
    DecisionsStart<P, D>(pending, sizes, decide);
    var progress: Progress<D> := Progress({}, [], map n | n in counts :: seq(counts[n], _ => None));
    assert CancelledIds<P>([]) == {};
    var i := 0;
    while i < |entries|
      invariant 0 <= i <= |entries| && IsProgress(progress, entries[..i], pending, sizes, decide)
    {
      assert entries[..i + 1] == entries[..i] + [entries[i]];
      var next := ReadEntry(progress, entries[i], pending, decide, entries[..i], sizes);
      if next.Err? {
        RefusedEntry(entries, i, pending, decide);
        return Err(next.error);
      }
      progress := next.value;
      i := i + 1;
    }
    assert entries[..i] == entries;
    if exists id :: id in pending && id !in progress.received {
      return Err(Incomplete);
    }
    EntriesCountPending(progress, entries, pending, sizes, decide);
    var mode := ModeOf(|progress.cancelled|, |pending|);
    if mode.Command? {
      EverySlotIsFilled(progress.decisions, entries, pending, sizes, decide);
    }
    return Ok(Translation(mode, progress.cancelled, progress.decisions));
  }

  lemma RefusedEntry<P, D>(entries: seq<Entry<P>>, i: nat, pending: Pending, decide: (P, PendingAction) -> Outcome<D, ResumeError>)
    requires i < |entries| && !(IsEntryFor(entries[i], pending, decide) && !HasEntry(entries[..i], entries[i].interruptId))
    ensures !AreAcceptable(entries, pending, decide)
  {
    if HasEntry(entries[..i], entries[i].interruptId) {
      var e :| e in entries[..i] && e.interruptId == entries[i].interruptId;
      var j :| 0 <= j < i && entries[..i][j] == e;
      assert entries[j].interruptId == entries[i].interruptId;
    }
  }

  /** With one entry per pending action, the count of cancelled entries tells all, none and some apart. */
  lemma EntriesCountPending<P, D>(
    progress: Progress<D>, entries: seq<Entry<P>>, pending: Pending, sizes: Sizes, decide: (P, PendingAction) -> Outcome<D, ResumeError>)
    requires IsProgress(progress, entries, pending, sizes, decide) && pending != map[]
    requires forall id :: id in pending ==> id in progress.received
    ensures AreAcceptable(entries, pending, decide)
    ensures |progress.cancelled| == |pending| <==> forall e :: e in entries ==> e.Cancelled?
    ensures |progress.cancelled| == 0 <==> forall e :: e in entries ==> e.Resolved?
  {
    hide AreDecisions, IsEntryFor;
    assert AreAcceptable(entries, pending, decide);
    var cancelled := CancelledIds(entries);
    forall id | id in cancelled ensures id in pending {
      var e :| e in entries && e.Cancelled? && e.interruptId == id;
      assert HasEntry(entries, id);
    }
    assert cancelled <= pending.Keys;
    if forall e :: e in entries ==> e.Cancelled? {
      forall id | id in pending ensures id in cancelled {
        assert HasEntry(entries, id);
      }
      assert cancelled == pending.Keys;
    } else {
      var e :| e in entries && !e.Cancelled?;
      OneEntryEach(entries, e);
      assert HasEntry(entries, e.interruptId);
      assert e.interruptId in pending.Keys - cancelled;
      assert |pending.Keys - cancelled| == |pending.Keys| - |cancelled|;
    }
    if !(forall e :: e in entries ==> e.Resolved?) {
      var e :| e in entries && !e.Resolved?;
      assert e.interruptId in cancelled;
    } else {
      assert cancelled == {};
    }
  }

  lemma OneEntryEach<P>(entries: seq<Entry<P>>, e: Entry<P>)
    requires forall i, j :: 0 <= i < j < |entries| ==> entries[i].interruptId != entries[j].interruptId
    requires e in entries && e.Resolved?
    ensures e.interruptId !in CancelledIds(entries)
  {
  }

  /** When nothing is cancelled no slot stays empty, so a command is never incomplete. */
  lemma EverySlotIsFilled<P, D>(
    decisions: map<string, seq<Option<D>>>, entries: seq<Entry<P>>, pending: Pending, sizes: Sizes,
    decide: (P, PendingAction) -> Outcome<D, ResumeError>)
    requires FillsGroups(pending, sizes) && AreDecisions(decisions, entries, pending, sizes, decide)
    requires AreAcceptable(entries, pending, decide) && forall e :: e in entries ==> e.Resolved?
    ensures forall n, k :: n in decisions && 0 <= k < |decisions[n]| ==> decisions[n][k].Some?
  {
    forall n, k | n in decisions && 0 <= k < |decisions[n]| ensures decisions[n][k].Some? {
      assert HasPlace(pending, MembersOf(pending, pending.Keys, n), k);
      var id :| id in MembersOf(pending, pending.Keys, n) && id in pending && pending[id].index == k;
      assert IsSlotOf(decisions[pending[id].nativeId][pending[id].index], entries, id, pending[id], decide);
      assert HasEntry(entries, id);
    }
  }

  /** A slot is empty exactly when its action's entry was cancelled. */
  lemma EmptyMeansCancelled<P, D>(
    decisions: map<string, seq<Option<D>>>, entries: seq<Entry<P>>, pending: Pending, sizes: Sizes,
    decide: (P, PendingAction) -> Outcome<D, ResumeError>, e: Entry<P>)
    requires AreDecisions(decisions, entries, pending, sizes, decide) && AreAcceptable(entries, pending, decide) && e in entries
    ensures
      var action := pending[e.interruptId];
      && action.nativeId in decisions && action.index < |decisions[action.nativeId]|
      && var slot := decisions[action.nativeId][action.index];
      match e
      case Cancelled(_, _) => slot.None?
      case Resolved(_, payload) => slot == Some(decide(payload, action).value)
  {
    var i :| 0 <= i < |entries| && entries[i] == e;
    assert IsEntryFor(entries[i], pending, decide);
    var action := pending[e.interruptId];
    var slot := decisions[action.nativeId][action.index];
    assert IsSlotOf(slot, entries, e.interruptId, action, decide);
    if slot.Some? {
      var other :| other in entries && other.Resolved? && other.interruptId == e.interruptId && decide(other.payload, action) == Ok(slot.value);
      var j :| 0 <= j < |entries| && entries[j] == other;
      assert i == j;
    }
  }

  // ---------------------------------------------------------------- from publication to translation

  function GroupSizes(toolIds: map<string, seq<string>>): Sizes {
    map n | n in toolIds :: |toolIds[n]|
  }

  /** The persisted interrupt behind a pending action. */
  lemma InterruptBehind(interrupts: seq<Interrupt>, pending: Pending, id: string) returns (p: Interrupt)
    requires ArePending(pending, interrupts) && id in pending
    ensures p in interrupts && p.id == id && pending[id] == PendingFor(p)
  {
    assert HasId(interrupts, id);
    p :| p in interrupts && p.id == id;
  }

  lemma PlacesDiffer(interrupts: seq<Interrupt>, p: Interrupt, q: Interrupt)
    requires AreConsistent(interrupts) && p in interrupts && q in interrupts && p.id != q.id && p.nativeId == q.nativeId
    ensures p.index != q.index
  {
    var i :| 0 <= i < |interrupts| && interrupts[i] == p;
    var j :| 0 <= j < |interrupts| && interrupts[j] == q;
    assert i < j ==> AreCompatible(interrupts[i], interrupts[j]);
    assert j < i ==> AreCompatible(interrupts[j], interrupts[i]);
  }

  lemma EveryPlaceIsPending(interrupts: seq<Interrupt>, collected: Collected, n: string, k: nat)
    requires AllComplete(interrupts) && AreToolIds(collected.toolIds, interrupts) && ArePending(collected.pending, interrupts)
    requires n in collected.toolIds && k < |collected.toolIds[n]|
    ensures HasPlace(collected.pending, MembersOf(collected.pending, collected.pending.Keys, n), k)
  {
    var p :| p in interrupts && p.nativeId == n;
    assert IsComplete(interrupts, p);
    assert HasInterrupt(interrupts, p.nativeId, k);
    var q :| q in interrupts && q.nativeId == n && q.index == k;
    assert q.id in collected.pending && collected.pending[q.id] == PendingFor(q);
  }

  /** Whatever was collected fills its groups: each action of each group is pending under one public ID. */
  lemma CollectedFillsGroups(interrupts: seq<Interrupt>, collected: Collected)
    requires AreConsistent(interrupts) && AllComplete(interrupts)
    requires AreToolIds(collected.toolIds, interrupts) && ArePending(collected.pending, interrupts)
    ensures FillsGroups(collected.pending, GroupSizes(collected.toolIds))
  {
    hide AreConsistent, AllComplete, ArePending, AreToolIds, HasPlace, MembersOf;
    var pending, sizes := collected.pending, GroupSizes(collected.toolIds);
    forall id | id in pending ensures pending[id].nativeId in sizes && pending[id].index < sizes[pending[id].nativeId] {
      var p := InterruptBehind(interrupts, pending, id);
      CollectedPlace(interrupts, collected, p);
    }
    forall id, other | id in pending && other in pending && SamePlace(pending[id], pending[other]) ensures id == other {
      var p := InterruptBehind(interrupts, pending, id);
      var q := InterruptBehind(interrupts, pending, other);
      if id != other {
        PlacesDiffer(interrupts, p, q);
      }
    }
    forall n, k | n in sizes && 0 <= k < sizes[n] ensures HasPlace(pending, MembersOf(pending, pending.Keys, n), k) {
      EveryPlaceIsPending(interrupts, collected, n, k);
    }
    forall n | n in sizes ensures sizes[n] > 0 {
      GroupHasMember(interrupts, collected, n);
    }
  }

  lemma CollectedPlace(interrupts: seq<Interrupt>, collected: Collected, p: Interrupt)
    requires AreToolIds(collected.toolIds, interrupts) && p in interrupts
    ensures p.nativeId in collected.toolIds && p.index < |collected.toolIds[p.nativeId]|
  {
  }

  lemma GroupHasMember(interrupts: seq<Interrupt>, collected: Collected, n: string)
    requires AreToolIds(collected.toolIds, interrupts) && n in collected.toolIds
    ensures |collected.toolIds[n]| > 0
  {
    var p :| p in interrupts && p.nativeId == n;
  }

  /** The pending actions are exactly the actions of the native groups, under their public IDs. */
  ghost predicate IsPendingOf(natives: seq<Native>, pending: Pending) {
    && RecoversPending(natives, pending)
    && forall id :: id in pending ==> IsPublicId(natives, id)
  }

  predicate IsPublicId(natives: seq<Native>, id: string) {
    exists g, k :: 0 <= g < |natives| && 0 <= k < |natives[g].request| && id == PublicId(natives[g].id, k, |natives[g].request|)
  }

  /** The published interrupts, each once, in whatever order they were stored. */
  ghost predicate ArePersisted(natives: seq<Native>, toolIds: seq<seq<string>>, persisted: seq<Interrupt>)
    requires AreMatched(natives, toolIds)
  {
    && (forall p :: p in persisted <==> p in Published(natives, toolIds))
    && HaveDistinctIds(persisted)
  }

  lemma PersistedIsPublication(natives: seq<Native>, toolIds: seq<seq<string>>, persisted: seq<Interrupt>)
    requires AreMatched(natives, toolIds) && ArePersisted(natives, toolIds, persisted)
    ensures IsPublication(natives, toolIds, persisted)
  {
    hide Published;
    PublishedIsPublication(natives, toolIds);
    var published := Published(natives, toolIds);
    forall h, k | 0 <= h < |natives| && 0 <= k < |natives[h].request| ensures InterruptFor(natives[h], k, toolIds[h][k]) in persisted {
      assert InterruptFor(natives[h], k, toolIds[h][k]) in published;
    }
    forall p | p in persisted
      ensures exists h, k :: 0 <= h < |natives| && 0 <= k < |natives[h].request| && p == InterruptFor(natives[h], k, toolIds[h][k])
    {
      assert p in published;
    }
  }

  /** Each slot of each native group, and whose entry it holds. */
  ghost predicate DecidesNatives<P, D>(
    natives: seq<Native>, decisions: map<string, seq<Option<D>>>, entries: seq<Entry<P>>, decide: (P, PendingAction) -> Outcome<D, ResumeError>)
  {
    forall g :: 0 <= g < |natives| ==>
      && natives[g].id in decisions && |decisions[natives[g].id]| == |natives[g].request|
      && forall k :: 0 <= k < |natives[g].request| ==>
           IsSlotOf(decisions[natives[g].id][k], entries, PublicId(natives[g].id, k, |natives[g].request|), ActionPending(natives[g], k), decide)
  }

  /**
    The whole way: native groups are published, their interrupts persisted in any order, collected again,
    and the client's entries, in any order, translated. Entries are accepted exactly when every action has
    one acceptable entry, and the decision of each entry reaches the slot of the action it was shown for.
   */
  method ResumePublished<P, D>(
    natives: seq<Native>, toolIds: seq<seq<string>>, persisted: seq<Interrupt>, entries: seq<Entry<P>>,
    decide: (P, PendingAction) -> Outcome<D, ResumeError>
  ) returns (r: Outcome<Translation<D>, ResumeError>, pending: Pending)
    requires AreMatched(natives, toolIds) && AreDistinctGroups(natives, toolIds) && natives != []
    requires ArePersisted(natives, toolIds, persisted)
    ensures IsPendingOf(natives, pending)
    ensures r.Ok? <==> AreAcceptable(entries, pending, decide)
    ensures r.Ok? ==> DecidesNatives(natives, r.value.decisions, entries, decide)
    ensures r.Ok? ==> (r.value.mode == Abandon <==> forall e :: e in entries ==> e.Cancelled?)
    ensures r.Ok? ==> (r.value.mode == Command <==> forall e :: e in entries ==> e.Resolved?)
  {
    PersistedIsPublication(natives, toolIds, persisted);
    PublicationIsConsistent(natives, toolIds, persisted);
    hide ArePersisted, IsPublication, AreDistinctGroups, AreConsistent, AllComplete, FillsGroups, AreAcceptable, AreDecisions;
    var collected := Collect(persisted);
    pending := collected.value.pending;
    RecoversGroups(natives, toolIds, persisted, collected.value);
    CollectedFillsGroups(persisted, collected.value);
    PendingIsPublic(natives, toolIds, persisted, pending);
    r := Translate(entries, pending, decide, GroupSizes(collected.value.toolIds));
    assert PublicId(natives[0].id, 0, |natives[0].request|) in pending;
    if r.Ok? {
      SlotsOfNatives(natives, toolIds, collected.value, r.value.decisions, entries, decide);
    }
  }

  lemma PendingIsPublic(natives: seq<Native>, toolIds: seq<seq<string>>, persisted: seq<Interrupt>, pending: Pending)
    requires AreMatched(natives, toolIds) && IsPublication(natives, toolIds, persisted)
    requires forall id :: id in pending ==> HasId(persisted, id)
    ensures forall id :: id in pending ==> IsPublicId(natives, id)
  {
    forall id | id in pending ensures IsPublicId(natives, id) {
      var p :| p in persisted && p.id == id;
      var g, k := ActionOf(natives, toolIds, persisted, p);
    }
  }

  lemma SlotsOfNatives<P, D>(
    natives: seq<Native>, toolIds: seq<seq<string>>, collected: Collected, decisions: map<string, seq<Option<D>>>, entries: seq<Entry<P>>,
    decide: (P, PendingAction) -> Outcome<D, ResumeError>)
    requires AreMatched(natives, toolIds)
    requires RecoversToolIds(natives, toolIds, collected.toolIds) && RecoversPending(natives, collected.pending)
    requires AreDecisions(decisions, entries, collected.pending, GroupSizes(collected.toolIds), decide)
    ensures DecidesNatives(natives, decisions, entries, decide)
  {
    hide IsSlotOf, PublicId;
    forall g | 0 <= g < |natives|
      ensures natives[g].id in decisions && |decisions[natives[g].id]| == |natives[g].request|
    {
      assert natives[g].id in collected.toolIds;
    }
    forall g, k | 0 <= g < |natives| && 0 <= k < |natives[g].request|
      ensures IsSlotOf(decisions[natives[g].id][k], entries, PublicId(natives[g].id, k, |natives[g].request|), ActionPending(natives[g], k), decide)
    {
      var id := PublicId(natives[g].id, k, |natives[g].request|);
      assert id in collected.pending && collected.pending[id] == ActionPending(natives[g], k);
    }
  }
}

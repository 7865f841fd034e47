/**
  Review interrupts: native groups of actions are published one interrupt per action, persisted, and
  collected again when the run resumes.
 */
module InterruptReviews {
  import opened Outcomes
  import opened JsonValues

  datatype Decision = Approve | Edit | Reject | Respond

  /** An action with its review policy. */
  datatype Reviewed = Reviewed(name: string, args: Json, allowed: seq<Decision>)

  type Request = seq<Reviewed>

  datatype Native = Native(id: string, request: Request)

  /** A published interrupt with the metadata it is persisted with. */
  datatype Interrupt = Interrupt(
    id: string, toolId: string, nativeId: string, index: nat, toolName: string, allowed: seq<Decision>, originalArgs: Json, request: Request)

  function Decimal(n: nat): string {
    if n < 10 then [('0' as int + n) as char] else Decimal(n / 10) + [('0' as int + n % 10) as char]
  }

  /** The native ID, numbered when the group has several actions. */
  function PublicId(nativeId: string, index: nat, size: nat): string {
    if size > 1 then nativeId + "#" + Decimal(index) else nativeId
  }

  /** The number a decimal numeral stands for. */
  function Value(text: string): int {
    if text == "" then 0 else Value(text[..|text| - 1]) * 10 + (text[|text| - 1] as int - '0' as int)
  }

  lemma {:induction false} DecimalHasValue(n: nat)
    ensures Decimal(n) != "" && Value(Decimal(n)) == n
    decreases n
  {
    var text := Decimal(n);
    if n >= 10 {
      DecimalHasValue(n / 10);
      assert text[..|text| - 1] == Decimal(n / 10);
    } else {
      assert text[..0] == "";
    }
  }

  /** The actions of a group go by different public IDs. */
  lemma ActionsHaveDifferentIds(nativeId: string, i: nat, j: nat, size: nat)
    requires i < j < size
    ensures PublicId(nativeId, i, size) != PublicId(nativeId, j, size)
  {
    DecimalHasValue(i);
    DecimalHasValue(j);
    var prefix := nativeId + "#";
    assert PublicId(nativeId, i, size)[|prefix|..] == Decimal(i) && PublicId(nativeId, j, size)[|prefix|..] == Decimal(j);
  }

  // ---------------------------------------------------------------- publication

  function InterruptFor(native: Native, index: nat, toolId: string): Interrupt
    requires index < |native.request|
  {
    var action := native.request[index];
    Interrupt(PublicId(native.id, index, |native.request|), toolId, native.id, index, action.name, action.allowed, action.args, native.request)
  }

  /** Tool IDs were matched group by group. */
  predicate AreMatched(natives: seq<Native>, toolIds: seq<seq<string>>) {
    |natives| == |toolIds| && forall g :: 0 <= g < |natives| ==> |toolIds[g]| == |natives[g].request| > 0
  }

  /** The interrupts of one group, in action order. */
  function GroupInterrupts(native: Native, toolIds: seq<string>): seq<Interrupt>
    requires |toolIds| == |native.request|
  {
    seq(|native.request|, k requires 0 <= k < |native.request| => InterruptFor(native, k, toolIds[k]))
  }

  function Published(natives: seq<Native>, toolIds: seq<seq<string>>): seq<Interrupt>
    requires AreMatched(natives, toolIds)
  {
    if natives == [] then []
    else
      var last := |natives| - 1;
      Published(natives[..last], toolIds[..last]) + GroupInterrupts(natives[last], toolIds[last])
  }

  /** Expand every group into its interrupts. */
  method Publish(natives: seq<Native>, toolIds: seq<seq<string>>) returns (prepared: seq<Interrupt>)
    requires AreMatched(natives, toolIds)
    ensures prepared == Published(natives, toolIds)
  {
    prepared := [];
    var g := 0;
    while g < |natives|
      invariant 0 <= g <= |natives| && prepared == Published(natives[..g], toolIds[..g])
    {
      ghost var before := prepared;
      var i := 0;
      while i < |natives[g].request|
        invariant 0 <= i <= |natives[g].request| && prepared == before + GroupInterrupts(natives[g], toolIds[g])[..i]
      {
        prepared := prepared + [InterruptFor(natives[g], i, toolIds[g][i])];
        i := i + 1;
      }
      assert natives[..g + 1][..g] == natives[..g] && toolIds[..g + 1][..g] == toolIds[..g];
      g := g + 1;
    }
    assert natives[..g] == natives && toolIds[..g] == toolIds;
  }

  lemma {:induction false} PublishedIsPublication(natives: seq<Native>, toolIds: seq<seq<string>>)
    requires AreMatched(natives, toolIds)
    ensures IsPublication(natives, toolIds, Published(natives, toolIds))
  {
    if natives != [] {
      var last := |natives| - 1;
      var earlier, group := Published(natives[..last], toolIds[..last]), GroupInterrupts(natives[last], toolIds[last]);
      PublishedIsPublication(natives[..last], toolIds[..last]);
      forall h, k | 0 <= h < |natives| && 0 <= k < |natives[h].request|
        ensures InterruptFor(natives[h], k, toolIds[h][k]) in earlier + group
      {
        if h < last {
          assert InterruptFor(natives[..last][h], k, toolIds[..last][h][k]) in earlier;
        } else {
          assert group[k] == InterruptFor(natives[h], k, toolIds[h][k]);
        }
      }
      forall p | p in earlier + group
        ensures exists h, k :: 0 <= h < |natives| && 0 <= k < |natives[h].request| && p == InterruptFor(natives[h], k, toolIds[h][k])
      {
        if p in earlier {
          var h, k :| 0 <= h < last && 0 <= k < |natives[..last][h].request| && p == InterruptFor(natives[..last][h], k, toolIds[..last][h][k]);
          assert p == InterruptFor(natives[h], k, toolIds[h][k]);
        } else {
          var k :| 0 <= k < |group| && group[k] == p;
          assert p == InterruptFor(natives[last], k, toolIds[last][k]);
        }
      }
    }
  }

  // ---------------------------------------------------------------- regrouping

  function Flattened<T>(groups: seq<seq<T>>): seq<T> {
    if groups == [] then [] else Flattened(groups[..|groups| - 1]) + groups[|groups| - 1]
  }

  predicate HaveSizes<T>(groups: seq<seq<T>>, sizes: seq<nat>) {
    |groups| == |sizes| && forall g :: 0 <= g < |groups| ==> |groups[g]| == sizes[g]
  }

  /** Cut the published interrupts back into groups of the native sizes; Inconsistent when they do not add up. */
  method GroupPrepared(sizes: seq<nat>, prepared: seq<Interrupt>) returns (r: Outcome<seq<seq<Interrupt>>, ResumeError>)
    ensures r.Ok? ==> HaveSizes(r.value, sizes) && Flattened(r.value) == prepared
    ensures r.Err? ==> forall groups: seq<seq<Interrupt>> :: HaveSizes(groups, sizes) ==> Flattened(groups) != prepared
  {
    var grouped: seq<seq<Interrupt>> := [];
    var offset, g := 0, 0;
    while g < |sizes|
      invariant 0 <= g <= |sizes| && 0 <= offset <= |prepared|
      invariant HaveSizes(grouped, sizes[..g]) && Flattened(grouped) == prepared[..offset]
    {
      if offset + sizes[g] > |prepared| {
        forall groups: seq<seq<Interrupt>> | HaveSizes(groups, sizes) ensures Flattened(groups) != prepared {
          SizesFixLength(groups[..g + 1], sizes[..g + 1]);
          SizesFixLength(grouped, sizes[..g]);
          assert sizes[..g + 1][..g] == sizes[..g];
          FlattenedPrefix(groups, g + 1);
        }
        return Err(Inconsistent);
      }
      var group := prepared[offset..offset + sizes[g]];
      assert (grouped + [group])[..|grouped|] == grouped;
      grouped, offset, g := grouped + [group], offset + sizes[g], g + 1;
    }
    assert sizes[..g] == sizes;
    if offset != |prepared| {
      forall groups: seq<seq<Interrupt>> | HaveSizes(groups, sizes) ensures Flattened(groups) != prepared {
        SizesFixLength(groups, sizes);
        SizesFixLength(grouped, sizes);
      }
      return Err(Inconsistent);
    }
    assert prepared[..offset] == prepared;
    return Ok(grouped);
  }

  function Total(sizes: seq<nat>): nat {
    if sizes == [] then 0 else Total(sizes[..|sizes| - 1]) + sizes[|sizes| - 1]
  }

  lemma {:induction false} SizesFixLength<T>(groups: seq<seq<T>>, sizes: seq<nat>)
    requires HaveSizes(groups, sizes)
    ensures |Flattened(groups)| == Total(sizes)
    decreases |groups|
  {
    if groups != [] {
      SizesFixLength(groups[..|groups| - 1], sizes[..|sizes| - 1]);
    }
  }

  lemma {:induction false} FlattenedPrefix<T>(groups: seq<seq<T>>, n: nat)
    requires n <= |groups|
    ensures |Flattened(groups[..n])| <= |Flattened(groups)|
    decreases |groups|
  {
    if n < |groups| {
      FlattenedPrefix(groups[..|groups| - 1], n);
      assert groups[..|groups| - 1][..n] == groups[..n];
    } else {
      assert groups[..n] == groups;
    }
  }

  /** Sizes and contents determine the groups. */
  lemma {:induction false} GroupsAreDetermined<T>(a: seq<seq<T>>, b: seq<seq<T>>, sizes: seq<nat>)
    requires HaveSizes(a, sizes) && HaveSizes(b, sizes) && Flattened(a) == Flattened(b)
    ensures a == b
    decreases |a|
  {
    if a != [] {
      var last := |a| - 1;
      var x, y := Flattened(a[..last]), Flattened(b[..last]);
      SizesFixLength(a[..last], sizes[..last]);
      SizesFixLength(b[..last], sizes[..last]);
      assert (x + a[last])[..|x|] == x && (y + b[last])[..|x|] == y;
      assert (x + a[last])[|x|..] == a[last] && (y + b[last])[|x|..] == b[last];
      GroupsAreDetermined(a[..last], b[..last], sizes[..last]);
      assert a == a[..last] + [a[last]] && b == b[..last] + [b[last]];
    }
  }

  function GroupsOf(natives: seq<Native>, toolIds: seq<seq<string>>): seq<seq<Interrupt>>
    requires AreMatched(natives, toolIds)
  {
    seq(|natives|, g requires 0 <= g < |natives| => GroupInterrupts(natives[g], toolIds[g]))
  }

  lemma {:induction false} PublishedIsFlattened(natives: seq<Native>, toolIds: seq<seq<string>>)
    requires AreMatched(natives, toolIds)
    ensures Flattened(GroupsOf(natives, toolIds)) == Published(natives, toolIds)
  {
    if natives != [] {
      var last := |natives| - 1;
      PublishedIsFlattened(natives[..last], toolIds[..last]);
      assert GroupsOf(natives, toolIds)[..last] == GroupsOf(natives[..last], toolIds[..last]);
    }
  }

  function SizesOf(natives: seq<Native>): seq<nat> {
    seq(|natives|, g requires 0 <= g < |natives| => |natives[g].request|)
  }

  /** Regrouping what was published gives back the groups. */
  lemma RegroupingRestoresGroups(natives: seq<Native>, toolIds: seq<seq<string>>, groups: seq<seq<Interrupt>>)
    requires AreMatched(natives, toolIds)
    requires HaveSizes(groups, SizesOf(natives)) && Flattened(groups) == Published(natives, toolIds)
    ensures groups == GroupsOf(natives, toolIds)
  {
    PublishedIsFlattened(natives, toolIds);
    GroupsAreDetermined(groups, GroupsOf(natives, toolIds), SizesOf(natives));
  }

  /** Every action has its interrupt and there are no others, in whatever order. */
  ghost predicate IsPublication(natives: seq<Native>, toolIds: seq<seq<string>>, prepared: seq<Interrupt>)
    requires AreMatched(natives, toolIds)
  {
    && (forall h, k :: 0 <= h < |natives| && 0 <= k < |natives[h].request| ==> InterruptFor(natives[h], k, toolIds[h][k]) in prepared)
    && (forall p :: p in prepared ==> exists h, k ::
          0 <= h < |natives| && 0 <= k < |natives[h].request| && p == InterruptFor(natives[h], k, toolIds[h][k]))
  }

  // ---------------------------------------------------------------- collection

  datatype PendingAction = PendingAction(nativeId: string, index: nat, name: string, allowed: seq<Decision>)

  datatype Group = Group(request: Request, slots: seq<Option<string>>)

  datatype Collected = Collected(pending: map<string, PendingAction>, toolIds: map<string, seq<string>>)

  datatype ResumeError = Unsupported | Inconsistent | DuplicatePending | Incomplete | DuplicateEntry | UnknownEntry | InvalidPayload | NoPending

  /** The persisted metadata agrees with the request it carries. */
  predicate IsParsable(p: Interrupt) {
    && p.index < |p.request|
    && p.id == PublicId(p.nativeId, p.index, |p.request|)
    && p.toolName == p.request[p.index].name
    && p.allowed == p.request[p.index].allowed
    && p.originalArgs == p.request[p.index].args
  }

  function PendingFor(p: Interrupt): PendingAction {
    PendingAction(p.nativeId, p.index, p.toolName, p.allowed)
  }

  /** Two interrupts that may be collected together. */
  predicate AreCompatible(p: Interrupt, q: Interrupt) {
    && p.toolId != q.toolId
    && p.id != q.id
    && (p.nativeId == q.nativeId ==> p.request == q.request && p.index != q.index)
  }

  /** Every action of the interrupt's group has an interrupt. */
  predicate IsComplete(interrupts: seq<Interrupt>, p: Interrupt) {
    forall k :: 0 <= k < |p.request| ==> HasInterrupt(interrupts, p.nativeId, k)
  }

  predicate HasInterrupt(interrupts: seq<Interrupt>, nativeId: string, k: nat) {
    exists q :: q in interrupts && q.nativeId == nativeId && q.index == k
  }

  predicate AreConsistent(interrupts: seq<Interrupt>) {
    && (forall i :: 0 <= i < |interrupts| ==> IsParsable(interrupts[i]))
    && (forall i, j :: 0 <= i < j < |interrupts| ==> AreCompatible(interrupts[i], interrupts[j]))
  }

  /** The groups collected so far. */
  ghost predicate AreGroups(groups: map<string, Group>, interrupts: seq<Interrupt>) {
    && (forall p :: p in interrupts ==> IsHeld(groups, p))
    && (forall n :: n in groups ==> IsGroupOf(groups[n], interrupts, n))
  }

  /** The interrupt's call is in its slot. */
  predicate IsHeld(groups: map<string, Group>, p: Interrupt) {
    && p.nativeId in groups && groups[p.nativeId].request == p.request && |groups[p.nativeId].slots| == |p.request|
    && p.index < |p.request| && groups[p.nativeId].slots[p.index] == Some(p.toolId)
  }

  /** Every filled slot comes from an interrupt of the group, which has at least one. */
  ghost predicate IsGroupOf(group: Group, interrupts: seq<Interrupt>, nativeId: string) {
    && (exists p :: p in interrupts && p.nativeId == nativeId && p.request == group.request)
    && |group.slots| == |group.request|
    && forall k :: 0 <= k < |group.slots| && group.slots[k].Some? ==> HasInterrupt(interrupts, nativeId, k)
  }

  predicate HasId(interrupts: seq<Interrupt>, id: string) {
    exists p :: p in interrupts && p.id == id
  }

  predicate UsesTool(interrupts: seq<Interrupt>, toolId: string) {
    exists p :: p in interrupts && p.toolId == toolId
  }

  ghost predicate AreTools(seen: set<string>, interrupts: seq<Interrupt>) {
    forall t :: t in seen <==> UsesTool(interrupts, t)
  }

  ghost predicate ArePending(pending: map<string, PendingAction>, interrupts: seq<Interrupt>) {
    && (forall p :: p in interrupts ==> p.id in pending && pending[p.id] == PendingFor(p))
    && (forall id :: id in pending ==> HasId(interrupts, id))
  }

  lemma FirstOfGroup(groups: map<string, Group>, interrupts: seq<Interrupt>, p: Interrupt)
    requires AreGroups(groups, interrupts) && IsParsable(p) && p.nativeId !in groups
    ensures
      var empty := seq(|p.request|, _ => None);
      AreGroups(groups[p.nativeId := Group(p.request, empty[p.index := Some(p.toolId)])], interrupts + [p])
  {
    var empty: seq<Option<string>> := seq(|p.request|, _ => None);
    var group := Group(p.request, empty[p.index := Some(p.toolId)]);
    var all := interrupts + [p];
    assert p in all;
    assert IsGroupOf(group, all, p.nativeId) by {
      assert HasInterrupt(all, p.nativeId, p.index);
    }
    forall n | n in groups ensures IsGroupOf(groups[n], all, n) {
      MoreInterrupts(groups[n], interrupts, p, n);
    }
    hide IsGroupOf;
  }

  lemma MoreInterrupts(group: Group, interrupts: seq<Interrupt>, p: Interrupt, nativeId: string)
    requires IsGroupOf(group, interrupts, nativeId)
    ensures IsGroupOf(group, interrupts + [p], nativeId)
  {
    var all := interrupts + [p];
    var member :| member in interrupts && member.nativeId == nativeId && member.request == group.request;
    assert member in all;
    forall k | 0 <= k < |group.slots| && group.slots[k].Some? ensures HasInterrupt(all, nativeId, k) {
      var q :| q in interrupts && q.nativeId == nativeId && q.index == k;
      assert q in all;
    }
  }

  lemma FilledGroup(group: Group, interrupts: seq<Interrupt>, p: Interrupt)
    requires IsGroupOf(group, interrupts, p.nativeId) && p.index < |group.slots|
    ensures IsGroupOf(group.(slots := group.slots[p.index := Some(p.toolId)]), interrupts + [p], p.nativeId)
  {
    MoreInterrupts(group, interrupts, p, p.nativeId);
    assert p in interrupts + [p] && HasInterrupt(interrupts + [p], p.nativeId, p.index);
  }

  lemma NextOfGroup(groups: map<string, Group>, interrupts: seq<Interrupt>, p: Interrupt)
    requires AreGroups(groups, interrupts) && IsParsable(p) && p.nativeId in groups
    requires groups[p.nativeId].request == p.request && groups[p.nativeId].slots[p.index].None?
    ensures
      var group := groups[p.nativeId];
      AreGroups(groups[p.nativeId := group.(slots := group.slots[p.index := Some(p.toolId)])], interrupts + [p])
  {
    var group, all := groups[p.nativeId], interrupts + [p];
    var filled := group.(slots := group.slots[p.index := Some(p.toolId)]);
    GroupHasSize(groups, interrupts, p.nativeId);
    forall q | q in all ensures IsHeld(groups[p.nativeId := filled], q) {
      if q != p {
        assert IsHeld(groups, q);
      }
    }
    hide IsGroupOf, IsParsable, IsHeld;
    FilledGroup(group, interrupts, p);
    forall n | n in groups ensures IsGroupOf(groups[n], all, n) {
      MoreInterrupts(groups[n], interrupts, p, n);
    }
  }

  /** Collect persisted interrupts into groups; None when they do not belong together. */
  method CollectGroups(interrupts: seq<Interrupt>) returns (r: Outcome<(map<string, Group>, map<string, PendingAction>), ResumeError>)
    ensures r.Ok? <==> AreConsistent(interrupts)
    ensures r.Ok? ==> AreGroups(r.value.0, interrupts) && ArePending(r.value.1, interrupts)
  {
    hide IsParsable, AreCompatible;
    var groups: map<string, Group> := map[];
    var pending: map<string, PendingAction> := map[];
    var seenTools: set<string> := {};
    var i := 0;
    while i < |interrupts|
      invariant 0 <= i <= |interrupts| && AreConsistent(interrupts[..i])
      invariant AreGroups(groups, interrupts[..i]) && ArePending(pending, interrupts[..i])
      invariant AreTools(seenTools, interrupts[..i])
    {
      var p := interrupts[i];
      var refused := Refusal(groups, pending, seenTools, p);
      RefusalMeans(groups, pending, seenTools, interrupts[..i], p);
      ConsistentNext(interrupts, i);
      if refused.Some? {
        return Err(refused.value);
      }
      ToolsGrow(seenTools, interrupts[..i], p);
      assert interrupts[..i + 1] == interrupts[..i] + [p];
      if p.nativeId !in groups {
        FirstOfGroup(groups, interrupts[..i], p);
        var empty: seq<Option<string>> := seq(|p.request|, _ => None);
        groups := groups[p.nativeId := Group(p.request, empty[p.index := Some(p.toolId)])];
      } else {
        NextOfGroup(groups, interrupts[..i], p);
        var group := groups[p.nativeId];
        groups := groups[p.nativeId := group.(slots := group.slots[p.index := Some(p.toolId)])];
      }
      PendingGrows(pending, interrupts[..i], p);
      seenTools, pending := seenTools + {p.toolId}, pending[p.id := PendingFor(p)];
      i := i + 1;
    }
    assert interrupts[..i] == interrupts;
    return Ok((groups, pending));
  }

  /** Why an interrupt cannot join the ones collected so far. */
  function Refusal(groups: map<string, Group>, pending: map<string, PendingAction>, seenTools: set<string>, p: Interrupt): Option<ResumeError>
  {
    if !IsParsable(p) || p.toolId in seenTools then Some(Unsupported)
    else if p.nativeId in groups && groups[p.nativeId].request != p.request then Some(Inconsistent)
    else if p.nativeId in groups && p.index < |groups[p.nativeId].slots| && groups[p.nativeId].slots[p.index].Some? then Some(DuplicatePending)
    else if p.id in pending then Some(DuplicatePending)
    else None
  }

  lemma PendingGrows(pending: map<string, PendingAction>, interrupts: seq<Interrupt>, p: Interrupt)
    requires ArePending(pending, interrupts) && p.id !in pending
    ensures ArePending(pending[p.id := PendingFor(p)], interrupts + [p])
  {
    hide PendingFor;
    var all := interrupts + [p];
    assert p in all;
    forall id | id in pending ensures HasId(all, id) {
      var q :| q in interrupts && q.id == id;
      assert q in all;
    }
  }

  lemma ToolsGrow(seen: set<string>, interrupts: seq<Interrupt>, p: Interrupt)
    requires AreTools(seen, interrupts)
    ensures AreTools(seen + {p.toolId}, interrupts + [p])
  {
    var all := interrupts + [p];
    assert p in all;
    forall t ensures UsesTool(all, t) <==> UsesTool(interrupts, t) || t == p.toolId {
      if UsesTool(interrupts, t) {
        var q :| q in interrupts && q.toolId == t;
        assert q in all;
      }
    }
  }

  /** The interrupt may join the ones collected before it. */
  predicate MayJoin(before: seq<Interrupt>, p: Interrupt) {
    IsParsable(p) && forall q :: q in before ==> AreCompatible(q, p)
  }

  lemma ConsistentNext(interrupts: seq<Interrupt>, i: nat)
    requires i < |interrupts| && AreConsistent(interrupts[..i])
    ensures AreConsistent(interrupts[..i + 1]) <==> MayJoin(interrupts[..i], interrupts[i])
    ensures !MayJoin(interrupts[..i], interrupts[i]) ==> !AreConsistent(interrupts)
  {
    hide IsParsable, AreCompatible;
    var before, upto, p := interrupts[..i], interrupts[..i + 1], interrupts[i];
    assert upto[i] == p && forall j :: 0 <= j < i ==> upto[j] == before[j] == interrupts[j];
    if MayJoin(before, p) {
      forall j | 0 <= j < i ensures AreCompatible(upto[j], p) {
        assert before[j] in before;
      }
    } else if IsParsable(p) {
      var q :| q in before && !AreCompatible(q, p);
      var j :| 0 <= j < i && before[j] == q;
      assert !AreCompatible(upto[j], upto[i]) && !AreCompatible(interrupts[j], interrupts[i]);
    } else {
      assert !IsParsable(upto[i]);
    }
  }

  /** An interrupt is refused exactly when it may not join. */
  lemma RefusalMeans(groups: map<string, Group>, pending: map<string, PendingAction>, seenTools: set<string>, before: seq<Interrupt>, p: Interrupt)
    requires AreGroups(groups, before) && ArePending(pending, before) && AreTools(seenTools, before)
    ensures Refusal(groups, pending, seenTools, p).None? <==> MayJoin(before, p)
    ensures Refusal(groups, pending, seenTools, p).None? ==>
              && IsParsable(p) && p.id !in pending
              && (p.nativeId in groups ==>
                    && groups[p.nativeId].request == p.request
                    && p.index < |groups[p.nativeId].slots| && groups[p.nativeId].slots[p.index].None?)
  {
    if Refusal(groups, pending, seenTools, p).None? {
      JoinsIfAccepted(groups, pending, seenTools, before, p);
    } else if IsParsable(p) {
      ConflictIfRefused(groups, pending, seenTools, before, p);
    }
  }

  lemma JoinsIfAccepted(groups: map<string, Group>, pending: map<string, PendingAction>, seenTools: set<string>, before: seq<Interrupt>, p: Interrupt)
    requires AreGroups(groups, before) && ArePending(pending, before) && AreTools(seenTools, before)
    requires Refusal(groups, pending, seenTools, p).None?
    ensures MayJoin(before, p)
    ensures p.nativeId in groups ==> groups[p.nativeId].request == p.request && |groups[p.nativeId].slots| == |p.request|
    ensures p.index < |p.request|
  {
    hide IsGroupOf, PendingFor;
    forall q | q in before ensures AreCompatible(q, p) {
      assert UsesTool(before, q.toolId);
    }
    if p.nativeId in groups {
      GroupHasSize(groups, before, p.nativeId);
    }
  }

  lemma GroupHasSize(groups: map<string, Group>, before: seq<Interrupt>, nativeId: string)
    requires AreGroups(groups, before) && nativeId in groups
    ensures |groups[nativeId].slots| == |groups[nativeId].request|
  {
    assert IsGroupOf(groups[nativeId], before, nativeId);
  }

  lemma ConflictIfRefused(groups: map<string, Group>, pending: map<string, PendingAction>, seenTools: set<string>, before: seq<Interrupt>, p: Interrupt)
    requires AreGroups(groups, before) && ArePending(pending, before) && AreTools(seenTools, before)
    requires IsParsable(p) && Refusal(groups, pending, seenTools, p).Some?
    ensures exists q :: q in before && !AreCompatible(q, p)
  {
    hide IsParsable, PendingFor;
    if p.toolId in seenTools {
      var q :| q in before && q.toolId == p.toolId;
      assert !AreCompatible(q, p);
    } else if p.id in pending {
      assert HasId(before, p.id);
      var q :| q in before && q.id == p.id;
      assert !AreCompatible(q, p);
    } else {
      var group := groups[p.nativeId];
      assert IsGroupOf(group, before, p.nativeId);
      hide AreGroups, ArePending, AreTools;
      if group.request != p.request {
        var q :| q in before && q.nativeId == p.nativeId && q.request == group.request;
        assert !AreCompatible(q, p);
      } else {
        assert HasInterrupt(before, p.nativeId, p.index);
        var q :| q in before && q.nativeId == p.nativeId && q.index == p.index;
        assert !AreCompatible(q, p);
      }
    }
  }

  // ---------------------------------------------------------------- complete groups

  predicate IsFilled(slots: seq<Option<string>>) {
    forall k :: 0 <= k < |slots| ==> slots[k].Some?
  }

  function Filled(slots: seq<Option<string>>): seq<string>
    requires IsFilled(slots)
  {
    seq(|slots|, k requires 0 <= k < |slots| => slots[k].value)
  }

  /** The collected groups name exactly the interrupts' calls, in action order. */
  ghost predicate AreToolIds(toolIds: map<string, seq<string>>, interrupts: seq<Interrupt>) {
    && (forall p :: p in interrupts ==>
          && p.nativeId in toolIds && |toolIds[p.nativeId]| == |p.request|
          && p.index < |p.request| && toolIds[p.nativeId][p.index] == p.toolId)
    && (forall n :: n in toolIds ==> exists p :: p in interrupts && p.nativeId == n)
  }

  predicate AllComplete(interrupts: seq<Interrupt>) {
    forall p :: p in interrupts ==> IsComplete(interrupts, p)
  }

  predicate AllFilled(groups: map<string, Group>) {
    forall n :: n in groups ==> IsFilled(groups[n].slots)
  }

  function ToolIdsOf(groups: map<string, Group>): map<string, seq<string>>
    requires AllFilled(groups)
  {
    map n | n in groups :: Filled(groups[n].slots)
  }

  /** What persisted interrupts have to agree on, said of their fields. */
  ghost predicate AgreeWithRequests(interrupts: seq<Interrupt>) {
    && (forall i :: 0 <= i < |interrupts| ==>
          var p := interrupts[i];
          && p.index < |p.request|
          && p.id == (if |p.request| > 1 then p.nativeId + "#" + Decimal(p.index) else p.nativeId)
          && Reviewed(p.toolName, p.originalArgs, p.allowed) == p.request[p.index])
    && (forall i, j :: 0 <= i < j < |interrupts| ==>
          var p, q := interrupts[i], interrupts[j];
          && p.toolId != q.toolId && p.id != q.id
          && (p.nativeId == q.nativeId ==> p.request == q.request && p.index != q.index))
  }

  /** Interrupts are consistent exactly when they do. */
  lemma ConsistencyIsSpelledOut(interrupts: seq<Interrupt>)
    ensures AreConsistent(interrupts) <==> AgreeWithRequests(interrupts)
  {
    assert forall i :: 0 <= i < |interrupts| ==> (IsParsable(interrupts[i]) ==> interrupts[i].index < |interrupts[i].request|);
  }

  /** Collect the groups and require each to be complete. */
  method Collect(interrupts: seq<Interrupt>) returns (r: Outcome<Collected, ResumeError>)
    ensures r.Ok? <==> AreConsistent(interrupts) && AllComplete(interrupts)
    ensures r.Ok? ==> AreToolIds(r.value.toolIds, interrupts) && ArePending(r.value.pending, interrupts)
  {
    hide AreConsistent, ArePending, AreGroups, AllComplete, AllFilled, AreToolIds, ToolIdsOf;
    var collected := CollectGroups(interrupts);
    if collected.Err? {
      return Err(collected.error);
    }
    var groups := collected.value.0;
    FilledIffComplete(groups, interrupts);
    if !AllFilled(groups) {
      return Err(Incomplete);
    }
    CollectedToolIds(groups, interrupts);
    return Ok(Collected(collected.value.1, ToolIdsOf(groups)));
  }

  lemma FilledIffComplete(groups: map<string, Group>, interrupts: seq<Interrupt>)
    requires AreGroups(groups, interrupts)
    ensures AllFilled(groups) <==> AllComplete(interrupts)
  {
    forall p | p in interrupts ensures p.nativeId in groups && (IsFilled(groups[p.nativeId].slots) <==> IsComplete(interrupts, p)) {
      FilledIfComplete(groups, interrupts, p);
    }
    forall n | n in groups ensures exists p :: p in interrupts && p.nativeId == n {
      assert IsGroupOf(groups[n], interrupts, n);
    }
    hide AreGroups, IsFilled, IsComplete;
  }

  lemma CollectedToolIds(groups: map<string, Group>, interrupts: seq<Interrupt>)
    requires AreGroups(groups, interrupts) && AllFilled(groups)
    ensures AreToolIds(ToolIdsOf(groups), interrupts)
  {
    forall n | n in groups ensures exists p :: p in interrupts && p.nativeId == n {
      assert IsGroupOf(groups[n], interrupts, n);
    }
    hide IsGroupOf;
  }

  lemma FilledIfComplete(groups: map<string, Group>, interrupts: seq<Interrupt>, p: Interrupt)
    requires AreGroups(groups, interrupts) && p in interrupts
    ensures IsFilled(groups[p.nativeId].slots) <==> IsComplete(interrupts, p)
  {
    var slots := groups[p.nativeId].slots;
    assert IsGroupOf(groups[p.nativeId], interrupts, p.nativeId);
    forall k | 0 <= k < |slots| ensures slots[k].Some? <==> HasInterrupt(interrupts, p.nativeId, k) {
      if HasInterrupt(interrupts, p.nativeId, k) {
        var q :| q in interrupts && q.nativeId == p.nativeId && q.index == k;
        assert slots[q.index] == Some(q.toolId);
      }
    }
  }

  // ---------------------------------------------------------------- the round trip

  /** Groups have different native IDs, and no tool call is matched twice. */
  predicate AreDistinctGroups(natives: seq<Native>, toolIds: seq<seq<string>>)
    requires AreMatched(natives, toolIds)
  {
    && (forall g, h :: 0 <= g < h < |natives| ==> natives[g].id != natives[h].id)
    && (forall g, h, i, k :: 0 <= g < |natives| && 0 <= h < |natives| && 0 <= i < |toolIds[g]| && 0 <= k < |toolIds[h]| ==>
          toolIds[g][i] == toolIds[h][k] ==> g == h && i == k)
  }

  predicate HaveDistinctIds(interrupts: seq<Interrupt>) {
    forall i, j :: 0 <= i < j < |interrupts| ==> interrupts[i].id != interrupts[j].id
  }

  /** Which action a published interrupt stands for. */
  lemma ActionOf(natives: seq<Native>, toolIds: seq<seq<string>>, interrupts: seq<Interrupt>, p: Interrupt) returns (g: nat, k: nat)
    requires AreMatched(natives, toolIds) && IsPublication(natives, toolIds, interrupts) && p in interrupts
    ensures g < |natives| && k < |natives[g].request| && p == InterruptFor(natives[g], k, toolIds[g][k])
  {
    g, k :| 0 <= g < |natives| && 0 <= k < |natives[g].request| && p == InterruptFor(natives[g], k, toolIds[g][k]);
  }

  lemma PublishedAreCompatible(natives: seq<Native>, toolIds: seq<seq<string>>, interrupts: seq<Interrupt>, p: Interrupt, q: Interrupt)
    requires AreMatched(natives, toolIds) && IsPublication(natives, toolIds, interrupts) && AreDistinctGroups(natives, toolIds)
    requires p in interrupts && q in interrupts && p.id != q.id
    ensures AreCompatible(p, q)
  {
    var g, i := ActionOf(natives, toolIds, interrupts, p);
    var h, k := ActionOf(natives, toolIds, interrupts, q);
    assert g != h ==> natives[g].id != natives[h].id;
  }

  /** A publication, in any order, is consistent and complete. */
  lemma PublicationIsConsistent(natives: seq<Native>, toolIds: seq<seq<string>>, interrupts: seq<Interrupt>)
    requires AreMatched(natives, toolIds) && IsPublication(natives, toolIds, interrupts)
    requires AreDistinctGroups(natives, toolIds) && HaveDistinctIds(interrupts)
    ensures AreConsistent(interrupts) && AllComplete(interrupts)
  {
    forall i | 0 <= i < |interrupts| ensures IsParsable(interrupts[i]) {
      var g, k := ActionOf(natives, toolIds, interrupts, interrupts[i]);
    }
    forall i, j | 0 <= i < j < |interrupts| ensures AreCompatible(interrupts[i], interrupts[j]) {
      PublishedAreCompatible(natives, toolIds, interrupts, interrupts[i], interrupts[j]);
    }
    forall p | p in interrupts ensures IsComplete(interrupts, p) {
      var g, i := ActionOf(natives, toolIds, interrupts, p);
      forall k | 0 <= k < |p.request| ensures HasInterrupt(interrupts, p.nativeId, k) {
        assert InterruptFor(natives[g], k, toolIds[g][k]) in interrupts;
      }
    }
  }

  predicate IsNativeId(natives: seq<Native>, id: string) {
    exists g :: 0 <= g < |natives| && natives[g].id == id
  }

  /** Exactly the native groups, each with its calls in action order. */
  ghost predicate RecoversToolIds(natives: seq<Native>, toolIds: seq<seq<string>>, found: map<string, seq<string>>)
    requires AreMatched(natives, toolIds)
  {
    && (forall g :: 0 <= g < |natives| ==> natives[g].id in found && found[natives[g].id] == toolIds[g])
    && (forall n :: n in found ==> IsNativeId(natives, n))
  }

  function ActionPending(native: Native, k: nat): PendingAction
    requires k < |native.request|
  {
    PendingAction(native.id, k, native.request[k].name, native.request[k].allowed)
  }

  /** Every action under its public ID, with its position, name and allowed decisions. */
  ghost predicate RecoversPending(natives: seq<Native>, pending: map<string, PendingAction>) {
    forall g, k :: 0 <= g < |natives| && 0 <= k < |natives[g].request| ==>
      && PublicId(natives[g].id, k, |natives[g].request|) in pending
      && pending[PublicId(natives[g].id, k, |natives[g].request|)] == ActionPending(natives[g], k)
  }

  /** Collecting a publication, in any order, recovers the groups, their calls in action order, and every policy. */
  method RoundTrip(natives: seq<Native>, toolIds: seq<seq<string>>, interrupts: seq<Interrupt>) returns (r: Collected)
    requires AreMatched(natives, toolIds) && IsPublication(natives, toolIds, interrupts)
    requires AreDistinctGroups(natives, toolIds) && HaveDistinctIds(interrupts)
    ensures RecoversToolIds(natives, toolIds, r.toolIds) && RecoversPending(natives, r.pending)
    ensures forall id :: id in r.pending ==> HasId(interrupts, id)
  {
    PublicationIsConsistent(natives, toolIds, interrupts);
    var collected := Collect(interrupts);
    r := collected.value;
    RecoversGroups(natives, toolIds, interrupts, r);
  }

  lemma RecoversGroups(natives: seq<Native>, toolIds: seq<seq<string>>, interrupts: seq<Interrupt>, r: Collected)
    requires AreMatched(natives, toolIds) && IsPublication(natives, toolIds, interrupts)
    requires AreToolIds(r.toolIds, interrupts) && ArePending(r.pending, interrupts)
    ensures RecoversToolIds(natives, toolIds, r.toolIds) && RecoversPending(natives, r.pending)
    ensures forall id :: id in r.pending ==> HasId(interrupts, id)
  {
    RecoversCalls(natives, toolIds, interrupts, r.toolIds);
    hide AreToolIds;
    forall g, k | 0 <= g < |natives| && 0 <= k < |natives[g].request|
      ensures PublicId(natives[g].id, k, |natives[g].request|) in r.pending
      ensures r.pending[PublicId(natives[g].id, k, |natives[g].request|)] == ActionPending(natives[g], k)
    {
      assert InterruptFor(natives[g], k, toolIds[g][k]) in interrupts;
    }
  }

  /** The interrupt of one action, and what collection found for it. */
  lemma CallRecovered(
    natives: seq<Native>, toolIds: seq<seq<string>>, interrupts: seq<Interrupt>, found: map<string, seq<string>>, g: nat, k: nat)
    requires AreMatched(natives, toolIds) && IsPublication(natives, toolIds, interrupts) && AreToolIds(found, interrupts)
    requires g < |natives| && k < |natives[g].request|
    ensures natives[g].id in found && |found[natives[g].id]| == |toolIds[g]| && found[natives[g].id][k] == toolIds[g][k]
  {
    assert InterruptFor(natives[g], k, toolIds[g][k]) in interrupts;
  }

  lemma NativeBehind(natives: seq<Native>, toolIds: seq<seq<string>>, interrupts: seq<Interrupt>, found: map<string, seq<string>>, n: string)
    requires AreMatched(natives, toolIds) && IsPublication(natives, toolIds, interrupts) && AreToolIds(found, interrupts) && n in found
    ensures IsNativeId(natives, n)
  {
    var p :| p in interrupts && p.nativeId == n;
    hide AreToolIds;
    var g, k := ActionOf(natives, toolIds, interrupts, p);
    assert natives[g].id == n;
  }

  lemma RecoversCalls(natives: seq<Native>, toolIds: seq<seq<string>>, interrupts: seq<Interrupt>, found: map<string, seq<string>>)
    requires AreMatched(natives, toolIds) && IsPublication(natives, toolIds, interrupts) && AreToolIds(found, interrupts)
    ensures RecoversToolIds(natives, toolIds, found)
  {
    hide IsPublication, AreToolIds, IsNativeId;
    forall g | 0 <= g < |natives| ensures natives[g].id in found && found[natives[g].id] == toolIds[g] {
      CallRecovered(natives, toolIds, interrupts, found, g, 0);
      forall k | 0 <= k < |toolIds[g]| ensures found[natives[g].id][k] == toolIds[g][k] {
        CallRecovered(natives, toolIds, interrupts, found, g, k);
      }
    }
    forall n | n in found ensures IsNativeId(natives, n) {
      NativeBehind(natives, toolIds, interrupts, found, n);
    }
  }
}

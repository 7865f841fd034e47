/**
  Correlation of reviewed actions with the tool calls that proposed them: what a complete assignment
  is, and when it is unique. Nothing here searches.
 */
module HitlModel {
  import opened Outcomes
  import opened JsonValues

  datatype Action = Action(name: string, args: Json)

  /** A tool call; its arguments are None when they could not be decoded. */
  datatype Candidate = Candidate(callId: string, toolName: string, args: Option<Json>)

  type Group = seq<Action>

  type Message = seq<Candidate>

  type CallIds = seq<string>

  /** The groups to assign, the messages that may hold their calls, and the slots kept in the result. */
  datatype Problem = Problem(groups: seq<Group>, messages: seq<Message>, slots: seq<seq<bool>>)

  /** The call is the action; when `relaxed`, undecodable arguments could be anything. */
  predicate Fits(relaxed: bool, action: Action, candidate: Candidate) {
    && candidate.toolName == action.name
    && if candidate.args.None? then relaxed else JsonValuesEqual(candidate.args.value, action.args)
  }

  // ---------------------------------------------------------------- one group in one message

  predicate IsIncreasing(at: seq<nat>) {
    forall i, j :: 0 <= i < j < |at| ==> at[i] < at[j]
  }

  /** The actions from the `a`-th on are the calls at these positions, in order and none before `c`. */
  predicate IsMatch(relaxed: bool, group: Group, message: Message, a: nat, c: nat, at: seq<nat>) {
    && a + |at| == |group|
    && IsIncreasing(at)
    && (forall i :: 0 <= i < |at| ==> c <= at[i] < |message| && Fits(relaxed, group[a + i], message[at[i]]))
  }

  function CallsAt(message: Message, at: seq<nat>): seq<Candidate>
    requires forall i :: 0 <= i < |at| ==> at[i] < |message|
  {
    seq(|at|, i requires 0 <= i < |at| => message[at[i]])
  }

  function IdsOf(calls: seq<Candidate>): CallIds {
    seq(|calls|, i requires 0 <= i < |calls| => calls[i].callId)
  }

  function IdsAt(message: Message, at: seq<nat>): CallIds
    requires forall i :: 0 <= i < |at| ==> at[i] < |message|
  {
    IdsOf(CallsAt(message, at))
  }

  // ---------------------------------------------------------------- complete assignments

  datatype Placement = Placement(message: nat, at: seq<nat>)

  predicate NoRepeats(ids: CallIds) {
    forall i, j :: 0 <= i < j < |ids| ==> ids[i] != ids[j]
  }

  predicate AreDisjoint(a: CallIds, b: CallIds) {
    forall id :: id in a ==> id !in b
  }

  predicate IsPlacement(relaxed: bool, p: Problem, group: Group, placement: Placement) {
    placement.message < |p.messages| && IsMatch(relaxed, group, p.messages[placement.message], 0, 0, placement.at)
  }

  predicate ArePlacements(relaxed: bool, p: Problem, g: nat, placements: seq<Placement>) {
    && g + |placements| == |p.groups|
    && forall i :: 0 <= i < |placements| ==> IsPlacement(relaxed, p, p.groups[g + i], placements[i])
  }

  function PlacedCalls(p: Problem, placement: Placement): seq<Candidate>
    requires placement.message < |p.messages|
    requires forall i :: 0 <= i < |placement.at| ==> placement.at[i] < |p.messages[placement.message]|
  {
    CallsAt(p.messages[placement.message], placement.at)
  }

  function PlacedIds(relaxed: bool, p: Problem, g: nat, placements: seq<Placement>): seq<CallIds>
    requires ArePlacements(relaxed, p, g, placements)
  {
    seq(|placements|, i requires 0 <= i < |placements| =>
      assert IsPlacement(relaxed, p, p.groups[g + i], placements[i]); IdsOf(PlacedCalls(p, placements[i])))
  }

  function AllCalls(relaxed: bool, p: Problem, g: nat, placements: seq<Placement>): seq<seq<Candidate>>
    requires ArePlacements(relaxed, p, g, placements)
  {
    seq(|placements|, i requires 0 <= i < |placements| =>
      assert IsPlacement(relaxed, p, p.groups[g + i], placements[i]); PlacedCalls(p, placements[i]))
  }

  /** No call is used twice, within a group or by two groups. */
  predicate UsesCallsOnce(chosen: seq<CallIds>) {
    && (forall i :: 0 <= i < |chosen| ==> NoRepeats(chosen[i]))
    && (forall i, j :: 0 <= i < j < |chosen| ==> AreDisjoint(chosen[i], chosen[j]))
  }

  /** Every group in one message each, in order, and no call used twice. */
  predicate IsAssignment(relaxed: bool, p: Problem, placements: seq<Placement>) {
    ArePlacements(relaxed, p, 0, placements) && UsesCallsOnce(PlacedIds(relaxed, p, 0, placements))
  }

  // ---------------------------------------------------------------- projections and verdicts

  /** The calls of the selected slots. */
  function Project(slots: seq<bool>, ids: CallIds): CallIds {
    if slots == [] || ids == [] then []
    else (if slots[0] then [ids[0]] else []) + Project(slots[1..], ids[1..])
  }

  function ProjectAll(slots: seq<seq<bool>>, chosen: seq<CallIds>): seq<CallIds> {
    seq(|chosen|, i requires 0 <= i < |chosen| => if i < |slots| then Project(slots[i], chosen[i]) else [])
  }

  /** The value is the projection of some complete assignment. */
  ghost predicate IsSolution(p: Problem, value: seq<CallIds>) {
    exists placements :: IsAssignment(false, p, placements) && value == ProjectAll(p.slots, PlacedIds(false, p, 0, placements))
  }

  datatype Verdict = NoSolution | UniqueSolution(value: seq<CallIds>) | ManySolutions

  /** What all the values satisfying `solves` together say. */
  ghost predicate Decides(verdict: Verdict, solves: seq<CallIds> -> bool) {
    match verdict
    case NoSolution => forall value :: !solves(value)
    case UniqueSolution(value) => solves(value) && forall other :: solves(other) ==> other == value
    case ManySolutions => exists a, b :: solves(a) && solves(b) && a != b
  }

  /** What all complete assignments together say. */
  ghost predicate IsVerdict(p: Problem, verdict: Verdict) {
    Decides(verdict, value => IsSolution(p, value))
  }

  /** There is exactly one verdict. */
  lemma VerdictIsUnique(p: Problem, a: Verdict, b: Verdict)
    requires IsVerdict(p, a) && IsVerdict(p, b)
    ensures a == b
  {
    hide IsSolution;
  }

  // ---------------------------------------------------------------- two of them are enough

  ghost predicate AreAtMostTwo<T>(found: seq<T>) {
    |found| <= 2 && (|found| == 2 ==> found[0] != found[1])
  }

  /** What was found later extends what was found before, by values that are reached. */
  ghost predicate Extends<T>(before: seq<T>, after: seq<T>, reached: T -> bool) {
    && before <= after
    && AreAtMostTwo(after)
    && forall i :: |before| <= i < |after| ==> reached(after[i])
  }

  /** Unless two values were found, none was missed. */
  ghost predicate Covers<T(!new)>(found: seq<T>, reached: T -> bool) {
    |found| <= 1 ==> forall value :: reached(value) ==> value in found
  }

  // ---------------------------------------------------------------- matches, position by position

  /** Past the last call there is nothing to match; otherwise the next call is used or skipped. */
  lemma MatchStep(relaxed: bool, group: Group, message: Message, a: nat, c: nat, at: seq<nat>)
    requires a < |group|
    ensures IsMatch(relaxed, group, message, a, c, at) <==>
            && c < |message|
            && (|| IsMatch(relaxed, group, message, a, c + 1, at)
                || (&& at != [] && at[0] == c && Fits(relaxed, group[a], message[c])
                    && IsMatch(relaxed, group, message, a + 1, c + 1, at[1..])))
  {
    hide Fits;
    if IsMatch(relaxed, group, message, a, c, at) && at[0] == c {
      assert forall i :: 0 <= i < |at| - 1 ==> at[1..][i] == at[i + 1] && at[0] < at[i + 1];
    }
    if at != [] && c < |message| && at[0] == c && Fits(relaxed, group[a], message[c])
       && IsMatch(relaxed, group, message, a + 1, c + 1, at[1..]) {
      var rest := at[1..];
      assert forall i :: 1 <= i < |at| ==> at[i] == rest[i - 1];
      forall i | 0 <= i < |at|
        ensures c <= at[i] < |message| && Fits(relaxed, group[a + i], message[at[i]])
      {
        if i > 0 {
          assert c + 1 <= rest[i - 1] < |message| && Fits(relaxed, group[a + 1 + (i - 1)], message[rest[i - 1]]);
        }
      }
    }
  }

  lemma UsedFirst(relaxed: bool, group: Group, message: Message, a: nat, c: nat, rest: seq<nat>)
    requires a < |group| && c < |message| && Fits(relaxed, group[a], message[c])
    requires IsMatch(relaxed, group, message, a + 1, c + 1, rest)
    ensures IsMatch(relaxed, group, message, a, c, [c] + rest)
    ensures CallsAt(message, [c] + rest) == [message[c]] + CallsAt(message, rest)
  {
    assert ([c] + rest)[1..] == rest;
    MatchStep(relaxed, group, message, a, c, [c] + rest);
  }

  /** Using the next call first puts its ID behind the ones already picked. */
  lemma IdsUsedFirst(message: Message, picked: CallIds, c: nat, rest: seq<nat>)
    requires c < |message| && forall i :: 0 <= i < |rest| ==> rest[i] < |message|
    ensures picked + IdsAt(message, [c] + rest) == picked + [message[c].callId] + IdsAt(message, rest)
  {
    assert IdsAt(message, [c] + rest) == [message[c].callId] + IdsAt(message, rest);
  }

  // ---------------------------------------------------------------- placements, group by group

  predicate AreNew(ids: CallIds, used: set<string>) {
    NoRepeats(ids) && forall id :: id in ids ==> id !in used
  }

  function SetOf(ids: CallIds): set<string> {
    set id | id in ids
  }

  /** A placement of the groups from `g` on that uses no call twice and none of `used`. */
  ghost predicate IsCompletion(relaxed: bool, p: Problem, g: nat, used: set<string>, placements: seq<Placement>) {
    && ArePlacements(relaxed, p, g, placements)
    && UsesCallsOnce(PlacedIds(relaxed, p, g, placements))
    && AvoidsAll(PlacedIds(relaxed, p, g, placements), used)
  }

  predicate AvoidsAll(chosen: seq<CallIds>, used: set<string>) {
    forall i :: 0 <= i < |chosen| ==> forall id :: id in chosen[i] ==> id !in used
  }

  lemma PlacedFirst(relaxed: bool, p: Problem, g: nat, first: Placement, rest: seq<Placement>)
    requires g < |p.groups| && IsPlacement(relaxed, p, p.groups[g], first) && ArePlacements(relaxed, p, g + 1, rest)
    ensures ArePlacements(relaxed, p, g, [first] + rest)
    ensures PlacedIds(relaxed, p, g, [first] + rest) == [IdsOf(PlacedCalls(p, first))] + PlacedIds(relaxed, p, g + 1, rest)
    ensures AllCalls(relaxed, p, g, [first] + rest) == [PlacedCalls(p, first)] + AllCalls(relaxed, p, g + 1, rest)
  {
    hide IsPlacement;
    forall i | 0 <= i < |rest| + 1 ensures IsPlacement(relaxed, p, p.groups[g + i], ([first] + rest)[i]) {
      if i > 0 {
        assert IsPlacement(relaxed, p, p.groups[g + 1 + (i - 1)], rest[i - 1]);
      }
    }
  }

  lemma PlacedRest(relaxed: bool, p: Problem, g: nat, placements: seq<Placement>)
    requires g < |p.groups| && ArePlacements(relaxed, p, g, placements)
    ensures placements != [] && IsPlacement(relaxed, p, p.groups[g], placements[0])
    ensures ArePlacements(relaxed, p, g + 1, placements[1..]) && placements == [placements[0]] + placements[1..]
  {
    hide IsPlacement;
    var rest := placements[1..];
    assert IsPlacement(relaxed, p, p.groups[g + 0], placements[0]);
    forall i | 0 <= i < |rest| ensures IsPlacement(relaxed, p, p.groups[g + 1 + i], rest[i]) {
      assert IsPlacement(relaxed, p, p.groups[g + (i + 1)], placements[i + 1]);
    }
  }

  /** Calls are used once by a first group and the others exactly when the others avoid the first. */
  lemma UsedOnceFirst(ids: CallIds, rest: seq<CallIds>, used: set<string>)
    ensures UsesCallsOnce([ids] + rest) && AvoidsAll([ids] + rest, used) <==>
            AreNew(ids, used) && UsesCallsOnce(rest) && AvoidsAll(rest, used + SetOf(ids))
  {
    var all := [ids] + rest;
    assert forall i :: 0 <= i < |rest| ==> all[i + 1] == rest[i];
    if UsesCallsOnce(all) && AvoidsAll(all, used) {
      assert all[0] == ids;
      forall i | 0 <= i < |rest| ensures forall id :: id in rest[i] ==> id !in used + SetOf(ids) {
        assert AreDisjoint(all[0], all[i + 1]);
      }
      assert UsesCallsOnce(rest) by {
        forall i, j | 0 <= i < j < |rest| ensures AreDisjoint(rest[i], rest[j]) {
          assert AreDisjoint(all[i + 1], all[j + 1]);
        }
      }
    }
    if AreNew(ids, used) && UsesCallsOnce(rest) && AvoidsAll(rest, used + SetOf(ids)) {
      forall i | 0 <= i < |all| ensures NoRepeats(all[i]) && forall id :: id in all[i] ==> id !in used {
        if i > 0 {
          assert all[i] == rest[i - 1];
        }
      }
      forall i, j | 0 <= i < j < |all| ensures AreDisjoint(all[i], all[j]) {
        assert all[j] == rest[j - 1];
        if i > 0 {
          assert all[i] == rest[i - 1];
          assert AreDisjoint(rest[i - 1], rest[j - 1]);
        } else {
          assert all[i] == ids && forall id :: id in rest[j - 1] ==> id !in used + SetOf(ids);
        }
      }
    }
  }

  // ---------------------------------------------------------------- what a solution says

  /** How many of these slots are selected. */
  function Selected(slots: seq<bool>): nat {
    if slots == [] then 0 else Selected(slots[..|slots| - 1]) + (if slots[|slots| - 1] then 1 else 0)
  }

  lemma {:induction false} SelectedFromFront(slots: seq<bool>)
    requires slots != []
    ensures Selected(slots) == (if slots[0] then 1 else 0) + Selected(slots[1..])
    decreases |slots|
  {
    if |slots| > 1 {
      var front := slots[..|slots| - 1];
      SelectedFromFront(front);
      assert front[1..] == slots[1..][..|slots| - 2];
    } else {
      assert slots[1..] == [] && slots[..0] == [];
    }
  }

  /** A projection lists the IDs of the selected slots and no others, in order. */
  lemma {:induction false} ProjectionListsSelected(slots: seq<bool>, ids: CallIds)
    requires |slots| == |ids|
    ensures |Project(slots, ids)| == Selected(slots)
    ensures forall a :: 0 <= a < |slots| && slots[a] ==> Selected(slots[..a]) < Selected(slots) && Project(slots, ids)[Selected(slots[..a])] == ids[a]
    decreases |slots|
  {
    if slots != [] {
      ProjectionListsSelected(slots[1..], ids[1..]);
      SelectedFromFront(slots);
      forall a | 0 <= a < |slots| && slots[a]
        ensures Selected(slots[..a]) < Selected(slots) && Project(slots, ids)[Selected(slots[..a])] == ids[a]
      {
        if a > 0 {
          SelectedFromFront(slots[..a]);
          assert slots[..a][1..] == slots[1..][..a - 1];
        }
      }
    }
  }

  /** The call was proposed with the action's name and identical arguments. */
  predicate IsCallOf(action: Action, call: Candidate) {
    call.toolName == action.name && call.args == Some(action.args)
  }

  lemma FittingIsIdentical(action: Action, call: Candidate)
    ensures Fits(false, action, call) <==> IsCallOf(action, call)
    ensures Fits(true, action, call) <==> IsCallOf(action, call) || (call.toolName == action.name && call.args == None)
  {
    if call.args.Some? {
      EqualMeansIdentical(call.args.value, action.args);
    }
  }

  /** In this message some call is the action and has this ID. */
  predicate HasCall(message: Message, action: Action, id: string) {
    exists c :: 0 <= c < |message| && IsCallOf(action, message[c]) && message[c].callId == id
  }

  /** The returned IDs of a group are those of calls in one message that are its selected actions. */
  predicate AreCallsOf(group: Group, slots: seq<bool>, ids: CallIds, message: Message)
    requires |slots| == |group|
  {
    && |ids| == Selected(slots)
    && forall a :: 0 <= a < |group| && slots[a] ==>
         Selected(slots[..a]) < |ids| && HasCall(message, group[a], ids[Selected(slots[..a])])
  }

  predicate AreCallsOfOne(group: Group, slots: seq<bool>, ids: CallIds, messages: seq<Message>)
    requires |slots| == |group|
  {
    exists m :: 0 <= m < |messages| && AreCallsOf(group, slots, ids, messages[m])
  }

  predicate NamesCalls(p: Problem, value: seq<CallIds>)
    requires |p.slots| == |p.groups| && forall g :: 0 <= g < |p.groups| ==> |p.slots[g]| == |p.groups[g]|
  {
    |value| == |p.groups| && forall g :: 0 <= g < |p.groups| ==> AreCallsOfOne(p.groups[g], p.slots[g], value[g], p.messages)
  }

  /** Every solution names calls that were proposed with the reviewed actions' names and arguments, each group's in one message. */
  lemma SolutionsNameTheirCalls(p: Problem, value: seq<CallIds>)
    requires |p.slots| == |p.groups| && forall g :: 0 <= g < |p.groups| ==> |p.slots[g]| == |p.groups[g]|
    requires IsSolution(p, value)
    ensures NamesCalls(p, value)
  {
    var placements :| IsAssignment(false, p, placements) && value == ProjectAll(p.slots, PlacedIds(false, p, 0, placements));
    forall g | 0 <= g < |p.groups|
      ensures AreCallsOfOne(p.groups[g], p.slots[g], value[g], p.messages)
    {
      var placement := placements[g];
      assert IsPlacement(false, p, p.groups[0 + g], placement);
      MatchNamesCalls(p.groups[g], p.slots[g], p.messages[placement.message], placement.at);
      assert value[g] == Project(p.slots[g], IdsAt(p.messages[placement.message], placement.at));
      assert AreCallsOf(p.groups[g], p.slots[g], value[g], p.messages[placement.message]);
    }
  }

  lemma MatchNamesCalls(group: Group, slots: seq<bool>, message: Message, at: seq<nat>)
    requires |slots| == |group| && IsMatch(false, group, message, 0, 0, at)
    ensures AreCallsOf(group, slots, Project(slots, IdsAt(message, at)), message)
  {
    var ids := IdsAt(message, at);
    ProjectionListsSelected(slots, ids);
    forall a | 0 <= a < |group| && slots[a] ensures HasCall(message, group[a], Project(slots, ids)[Selected(slots[..a])]) {
      FittingIsIdentical(group[0 + a], message[at[a]]);
    }
  }
}

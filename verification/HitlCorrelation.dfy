/**
  The public correlation: argument checks, the memoised search for a single group, the backtracking
  search for several, and the verdict.
 */
module HitlCorrelation {
  import opened Outcomes
  import opened JsonValues
  import opened HitlModel
  import opened HitlSearch

  // ---------------------------------------------------------------- projected matches of one group

  /** The selected calls of some match of the actions from the `a`-th on, none before position `c`. */
  ghost predicate IsSuffix(group: Group, message: Message, slots: seq<bool>, a: nat, c: nat, value: CallIds)
    requires |slots| == |group| && a <= |group|
  {
    exists at :: IsMatch(false, group, message, a, c, at) && value == Project(slots[a..], IdsAt(message, at))
  }

  /** A call in front of a suffix, if its slot is selected. */
  function Prepended(keep: bool, id: string, suffix: CallIds): CallIds {
    if keep then [id] + suffix else suffix
  }

  ghost predicate IsSuffixUsing(group: Group, message: Message, slots: seq<bool>, a: nat, c: nat, value: CallIds)
    requires |slots| == |group| && a < |group| && c < |message|
  {
    exists rest :: IsSuffix(group, message, slots, a + 1, c + 1, rest) && value == Prepended(slots[a], message[c].callId, rest)
  }

  lemma ProjectFirst(slots: seq<bool>, a: nat, id: string, ids: CallIds)
    requires a < |slots|
    ensures Project(slots[a..], [id] + ids) == Prepended(slots[a], id, Project(slots[a + 1..], ids))
  {
    assert slots[a..][1..] == slots[a + 1..] && ([id] + ids)[1..] == ids;
  }

  /** Past the last call there is no suffix; otherwise the next call is used or skipped. */
  lemma SuffixStep(group: Group, message: Message, slots: seq<bool>, a: nat, c: nat, value: CallIds)
    requires |slots| == |group| && a < |group|
    ensures IsSuffix(group, message, slots, a, c, value) <==>
            && c < |message|
            && (|| IsSuffix(group, message, slots, a, c + 1, value)
                || (Fits(false, group[a], message[c]) && IsSuffixUsing(group, message, slots, a, c, value)))
  {
    hide Fits;
    if IsSuffix(group, message, slots, a, c, value) {
      var at :| IsMatch(false, group, message, a, c, at) && value == Project(slots[a..], IdsAt(message, at));
      MatchStep(false, group, message, a, c, at);
      if !IsMatch(false, group, message, a, c + 1, at) {
        var rest := at[1..];
        UsedFirst(false, group, message, a, c, rest);
        assert at == [c] + rest;
        assert IdsAt(message, at) == [message[c].callId] + IdsAt(message, rest);
        ProjectFirst(slots, a, message[c].callId, IdsAt(message, rest));
        assert IsSuffix(group, message, slots, a + 1, c + 1, Project(slots[a + 1..], IdsAt(message, rest)));
      }
    }
    if c < |message| {
      if IsSuffix(group, message, slots, a, c + 1, value) {
        var at :| IsMatch(false, group, message, a, c + 1, at) && value == Project(slots[a..], IdsAt(message, at));
        MatchStep(false, group, message, a, c, at);
      }
      if Fits(false, group[a], message[c]) && IsSuffixUsing(group, message, slots, a, c, value) {
        SuffixUsed(group, message, slots, a, c, value);
      }
    }
  }

  lemma SuffixUsed(group: Group, message: Message, slots: seq<bool>, a: nat, c: nat, value: CallIds)
    requires |slots| == |group| && a < |group| && c < |message| && Fits(false, group[a], message[c])
    requires IsSuffixUsing(group, message, slots, a, c, value)
    ensures IsSuffix(group, message, slots, a, c, value)
  {
    hide Fits;
    var suffix :| IsSuffix(group, message, slots, a + 1, c + 1, suffix) && value == Prepended(slots[a], message[c].callId, suffix);
    var rest :| IsMatch(false, group, message, a + 1, c + 1, rest) && suffix == Project(slots[a + 1..], IdsAt(message, rest));
    UsedFirst(false, group, message, a, c, rest);
    assert IdsAt(message, [c] + rest) == [message[c].callId] + IdsAt(message, rest);
    ProjectFirst(slots, a, message[c].callId, IdsAt(message, rest));
  }

  /** At most two distinct suffixes, and all of them unless there are two. */
  ghost predicate Summarizes(found: seq<CallIds>, group: Group, message: Message, slots: seq<bool>, a: nat, c: nat)
    requires |slots| == |group| && a <= |group|
  {
    && Extends([], found, value => IsSuffix(group, message, slots, a, c, value))
    && Covers(found, value => IsSuffix(group, message, slots, a, c, value))
  }

  lemma EmptySuffix(group: Group, message: Message, slots: seq<bool>, c: nat)
    requires |slots| == |group|
    ensures Summarizes([[]], group, message, slots, |group|, c)
  {
    assert IsMatch(false, group, message, |group|, c, []);
    assert slots[|group|..] == [];
    assert Project([], IdsAt(message, [])) == [];
  }

  class ProjectionSearch {
    const group: Group
    const message: Message
    const slots: seq<bool>
    var memo: map<(nat, nat), seq<CallIds>>

    ghost predicate Valid()
      reads this
    {
      && |slots| == |group|
      && forall cell :: cell in memo ==> cell.0 <= |group| && Summarizes(memo[cell], group, message, slots, cell.0, cell.1)
    }

    constructor (group: Group, message: Message, slots: seq<bool>)
      requires |slots| == |group|
      ensures Valid() && this.group == group && this.message == message && this.slots == slots
    {
      this.group, this.message, this.slots, memo := group, message, slots, map[];
    }

    /** The memoised search, keeping two suffixes per cell. */
    method Search(a: nat, c: nat) returns (found: seq<CallIds>)
      requires Valid() && a <= |group|
      modifies this`memo
      ensures Valid() && Summarizes(found, group, message, slots, a, c)
      decreases |group| - a, 1
    {
      if (a, c) in memo {
        return memo[(a, c)];
      }
      if a == |group| {
        EmptySuffix(group, message, slots, c);
        found := [[]];
      } else {
        found := Collect(a, c);
      }
      memo := memo[(a, c) := found];
    }

    method Collect(a: nat, c: nat) returns (found: seq<CallIds>)
      requires Valid() && a < |group|
      modifies this`memo
      ensures Valid() && Summarizes(found, group, message, slots, a, c)
      decreases |group| - a, 0
    {
      hide IsSuffix, IsSuffixUsing, Fits;
      found := [];
      var index := c;
      while index < |message|
        invariant c <= index && Valid() && |found| <= 1
        invariant Extends([], found, value => IsSuffix(group, message, slots, a, c, value))
        invariant forall value :: IsSuffix(group, message, slots, a, c, value) ==>
                    value in found || IsSuffix(group, message, slots, a, index, value)
        invariant forall value :: IsSuffix(group, message, slots, a, index, value) ==> IsSuffix(group, message, slots, a, c, value)
        decreases |message| - index
      {
        forall value ensures IsSuffix(group, message, slots, a, index, value) <==>
                             (|| IsSuffix(group, message, slots, a, index + 1, value)
                              || (Fits(false, group[a], message[index]) && IsSuffixUsing(group, message, slots, a, index, value)))
        {
          SuffixStep(group, message, slots, a, index, value);
        }
        if Fits(false, group[a], message[index]) {
          var suffixes := Search(a + 1, index + 1);
          found := AddSuffixes(group, message, slots, a, index, found, suffixes);
          if |found| > 1 {
            return;
          }
        }
        index := index + 1;
      }
      forall value ensures !IsSuffix(group, message, slots, a, index, value) {
        SuffixStep(group, message, slots, a, index, value);
      }
    }
  }

  /** Add the suffixes behind one call, stopping at the second distinct result. */
  method AddSuffixes(
    group: Group, message: Message, slots: seq<bool>, a: nat, c: nat, before: seq<CallIds>, suffixes: seq<CallIds>
  ) returns (found: seq<CallIds>)
    requires |slots| == |group| && a < |group| && c < |message| && |before| <= 1
    requires Summarizes(suffixes, group, message, slots, a + 1, c + 1)
    ensures Extends(before, found, value => IsSuffixUsing(group, message, slots, a, c, value))
    ensures |found| <= 1 ==> forall value :: IsSuffixUsing(group, message, slots, a, c, value) ==> value in found
  {
    hide IsSuffix;
    found := before;
    var j := 0;
    while j < |suffixes|
      invariant 0 <= j <= |suffixes| && |found| <= 1
      invariant Extends(before, found, value => IsSuffixUsing(group, message, slots, a, c, value))
      invariant forall i :: 0 <= i < j ==> Prepended(slots[a], message[c].callId, suffixes[i]) in found
    {
      var solution := Prepended(slots[a], message[c].callId, suffixes[j]);
      if solution !in found {
        found := found + [solution];
        if |found| > 1 {
          return;
        }
      }
      j := j + 1;
    }
    if |suffixes| == 2 {
      PrependedDiffer(slots[a], message[c].callId, suffixes[0], suffixes[1]);
      assert false;
    }
    forall value | IsSuffixUsing(group, message, slots, a, c, value) ensures value in found {
      var rest :| IsSuffix(group, message, slots, a + 1, c + 1, rest) && value == Prepended(slots[a], message[c].callId, rest);
      assert rest in suffixes;
    }
  }

  lemma PrependedDiffer(keep: bool, id: string, a: CallIds, b: CallIds)
    requires a != b
    ensures Prepended(keep, id, a) != Prepended(keep, id, b)
  {
    if keep {
      assert ([id] + a)[1..] == a && ([id] + b)[1..] == b;
    }
  }

  // ---------------------------------------------------------------- a single group

  /** The value is the projection of an ordered match of the only group. */
  ghost predicate IsOrderedSolution(p: Problem, value: seq<CallIds>)
    requires IsShaped(p) && |p.groups| == 1
  {
    exists m: nat, found: CallIds ::
      m < |p.messages| && IsSuffix(p.groups[0], p.messages[m], p.slots[0], 0, 0, found) && value == [found]
  }

  ghost predicate IsOrderedVerdict(p: Problem, verdict: Verdict)
    requires IsShaped(p) && |p.groups| == 1
  {
    Decides(verdict, value => IsOrderedSolution(p, value))
  }

  /** One slot per action. */
  predicate IsShaped(p: Problem) {
    |p.slots| == |p.groups| && forall g :: 0 <= g < |p.groups| ==> |p.slots[g]| == |p.groups[g]|
  }

  method MatchSingleGroup(p: Problem) returns (solutions: seq<seq<CallIds>>)
    requires IsShaped(p) && |p.groups| == 1
    ensures Extends([], solutions, value => IsOrderedSolution(p, value))
    ensures Covers(solutions, value => IsOrderedSolution(p, value))
  {
    hide IsSuffix;
    var group, slots := p.groups[0], p.slots[0];
    solutions := [];
    var m := 0;
    while m < |p.messages|
      invariant 0 <= m <= |p.messages| && |solutions| <= 1
      invariant Extends([], solutions, value => IsOrderedSolution(p, value))
      invariant forall n: nat, found :: n < m && IsSuffix(group, p.messages[n], slots, 0, 0, found) ==> [found] in solutions
    {
      var search := new ProjectionSearch(group, p.messages[m], slots);
      var matches := search.Search(0, 0);
      SingletonsDiffer(matches);
      ghost var before := solutions;
      var j := 0;
      while j < |matches|
        invariant 0 <= j <= |matches| && |solutions| <= 1 && before <= solutions
        invariant Extends([], solutions, value => IsOrderedSolution(p, value))
        invariant forall i :: 0 <= i < j ==> [matches[i]] in solutions
      {
        assert IsSuffix(group, p.messages[m], slots, 0, 0, matches[j]);
        if [matches[j]] !in solutions {
          solutions := solutions + [[matches[j]]];
          if |solutions| > 1 {
            return;
          }
        }
        j := j + 1;
      }
      forall found | IsSuffix(group, p.messages[m], slots, 0, 0, found) ensures [found] in solutions {
        assert found in matches;
      }
      m := m + 1;
    }
  }

  lemma SingletonsDiffer(matches: seq<CallIds>)
    requires AreAtMostTwo(matches)
    ensures |matches| == 2 ==> [matches[0]] != [matches[1]]
  {
    if |matches| == 2 {
      assert [matches[0]][0] != [matches[1]][0];
    }
  }

  /** No message lists a call ID twice among its well-formed calls; malformed ones never match. */
  predicate HasDistinctCalls(messages: seq<Message>) {
    forall m :: 0 <= m < |messages| ==> ListsCallsOnce(messages[m])
  }

  predicate ListsCallsOnce(message: Message) {
    forall i, j :: 0 <= i < j < |message| && message[i].args.Some? && message[j].args.Some? ==> message[i].callId != message[j].callId
  }

  lemma MatchedIdsDiffer(group: Group, message: Message, at: seq<nat>)
    requires ListsCallsOnce(message) && IsMatch(false, group, message, 0, 0, at)
    ensures NoRepeats(IdsAt(message, at))
  {
    forall i, j | 0 <= i < j < |at| ensures IdsAt(message, at)[i] != IdsAt(message, at)[j] {
      assert Fits(false, group[0 + i], message[at[i]]) && Fits(false, group[0 + j], message[at[j]]);
    }
  }

  /** With distinct calls the single-group search decides the same question as the general one. */
  lemma OrderedSolutionsAreSolutions(p: Problem, value: seq<CallIds>)
    requires IsShaped(p) && |p.groups| == 1 && HasDistinctCalls(p.messages)
    ensures IsOrderedSolution(p, value) <==> IsSolution(p, value)
  {
    hide Fits;
    assert p.slots[0][0..] == p.slots[0];
    if IsOrderedSolution(p, value) {
      var m: nat, found :| m < |p.messages| && IsSuffix(p.groups[0], p.messages[m], p.slots[0], 0, 0, found) && value == [found];
      var at :| IsMatch(false, p.groups[0], p.messages[m], 0, 0, at) && found == Project(p.slots[0][0..], IdsAt(p.messages[m], at));
      OneGroupAssigned(p, m, at);
    }
    if IsSolution(p, value) {
      var placements: seq<Placement> :| IsAssignment(false, p, placements) && value == ProjectAll(p.slots, PlacedIds(false, p, 0, placements));
      assert IsPlacement(false, p, p.groups[0 + 0], placements[0]);
      var m, at := placements[0].message, placements[0].at;
      assert value == [Project(p.slots[0], IdsOf(PlacedCalls(p, placements[0])))];
      assert IsSuffix(p.groups[0], p.messages[m], p.slots[0], 0, 0, value[0]);
    }
  }

  lemma OneGroupAssigned(p: Problem, m: nat, at: seq<nat>)
    requires IsShaped(p) && |p.groups| == 1 && HasDistinctCalls(p.messages)
    requires m < |p.messages| && IsMatch(false, p.groups[0], p.messages[m], 0, 0, at)
    ensures IsSolution(p, [Project(p.slots[0], IdsAt(p.messages[m], at))])
  {
    hide Fits;
    var placements := [Placement(m, at)];
    MatchedIdsDiffer(p.groups[0], p.messages[m], at);
    assert IsPlacement(false, p, p.groups[0], placements[0]);
    var ids := PlacedIds(false, p, 0, placements);
    assert ids == [IdsAt(p.messages[m], at)];
    assert IsAssignment(false, p, placements);
    assert ProjectAll(p.slots, ids) == [Project(p.slots[0], IdsAt(p.messages[m], at))];
  }

  // ---------------------------------------------------------------- the public operation

  datatype HitlError = EmptyGroups | NoMessages | SlotsMismatch | BudgetExceeded | Ambiguous | NoMatch

  predicate HasEmptyGroup(groups: seq<Group>) {
    groups == [] || exists g :: 0 <= g < |groups| && groups[g] == []
  }

  /** Every slot is kept when none are named. */
  function AllSlots(groups: seq<Group>): seq<seq<bool>> {
    seq(|groups|, g requires 0 <= g < |groups| => seq(|groups[g]|, i requires 0 <= i < |groups[g]| => true))
  }

  function ProblemOf(groups: seq<Group>, messages: seq<Message>, slots: Option<seq<seq<bool>>>): Problem {
    Problem(groups, messages, if slots.Some? then slots.value else AllSlots(groups))
  }

  function OutcomeOf(verdict: Verdict): Outcome<seq<CallIds>, HitlError> {
    match verdict
    case NoSolution => Err(NoMatch)
    case UniqueSolution(value) => Ok(value)
    case ManySolutions => Err(Ambiguous)
  }

  /**
    The verdict on all complete assignments, unless the arguments are malformed or the search for several
    groups is larger than the budget; only two different solutions may be found before it runs out. One group is decided without a budget, among its ordered matches.
   */
  method MatchActionGroups(groups: seq<Group>, messages: seq<Message>, slots: Option<seq<seq<bool>>>)
    returns (r: Outcome<seq<CallIds>, HitlError>)
    ensures
      var p := ProblemOf(groups, messages, slots);
      if HasEmptyGroup(groups) then r == Err(EmptyGroups)
      else if messages == [] then r == Err(NoMessages)
      else if !IsShaped(p) then r == Err(SlotsMismatch)
      else if |groups| > 1 then
        || (r == Err(BudgetExceeded) && SearchSize(p) > 100_000)
        || exists verdict :: IsVerdict(p, verdict) && r == OutcomeOf(verdict) && (SearchSize(p) <= 100_000 || verdict.ManySolutions?)
      else exists verdict :: IsOrderedVerdict(p, verdict) && r == OutcomeOf(verdict)
    ensures r.Ok? ==> IsShaped(ProblemOf(groups, messages, slots)) && NamesCalls(ProblemOf(groups, messages, slots), r.value)
  {
    if HasEmptyGroup(groups) {
      return Err(EmptyGroups);
    }
    if messages == [] {
      return Err(NoMessages);
    }
    var p := ProblemOf(groups, messages, slots);
    if !IsShaped(p) {
      return Err(SlotsMismatch);
    }
    hide IsSolution, IsOrderedSolution, Reaches, IsShaped, IsVerdict, IsOrderedVerdict, AssignSteps;
    var solutions;
    if |groups| == 1 {
      solutions := MatchSingleGroup(p);
      OrderedSolutionsDecide(p, solutions);
    } else {
      var search := new GroupSearch(p);
      var within := search.Assign(0);
      if !within {
        return Err(BudgetExceeded);
      }
      solutions := search.solutions;
      ReachedSolutionsDecide(p, solutions);
    }
    if |solutions| > 1 {
      return Err(Ambiguous);
    }
    if solutions == [] {
      return Err(NoMatch);
    }
    OnlySolutionNamesItsCalls(p, solutions[0]);
    return Ok(solutions[0]);
  }

  /** The only solution, on either path, names the calls of the reviewed actions. */
  lemma OnlySolutionNamesItsCalls(p: Problem, value: seq<CallIds>)
    requires IsShaped(p) && (IsVerdict(p, UniqueSolution(value)) || (|p.groups| == 1 && IsOrderedVerdict(p, UniqueSolution(value))))
    ensures NamesCalls(p, value)
  {
    hide IsSolution, NamesCalls;
    if IsVerdict(p, UniqueSolution(value)) {
      SolutionsNameTheirCalls(p, value);
    } else {
      OrderedSolutionsNameTheirCalls(p, value);
    }
  }

  lemma OrderedSolutionsNameTheirCalls(p: Problem, value: seq<CallIds>)
    requires IsShaped(p) && |p.groups| == 1 && IsOrderedSolution(p, value)
    ensures NamesCalls(p, value)
  {
    var m: nat, found :| m < |p.messages| && IsSuffix(p.groups[0], p.messages[m], p.slots[0], 0, 0, found) && value == [found];
    var at :| IsMatch(false, p.groups[0], p.messages[m], 0, 0, at) && found == Project(p.slots[0][0..], IdsAt(p.messages[m], at));
    assert p.slots[0][0..] == p.slots[0];
    MatchNamesCalls(p.groups[0], p.slots[0], p.messages[m], at);
    hide IsMatch, Project, AreCallsOf;
  }

  function VerdictOf(solutions: seq<seq<CallIds>>): Verdict {
    if solutions == [] then NoSolution else if |solutions| == 1 then UniqueSolution(solutions[0]) else ManySolutions
  }

  /** Two kept solutions decide as well as all of them. */
  lemma SolutionsDecide(solutions: seq<seq<CallIds>>, solves: seq<CallIds> -> bool)
    requires Extends([], solutions, solves) && Covers(solutions, solves)
    ensures Decides(VerdictOf(solutions), solves)
  {
    if |solutions| == 2 {
      assert solves(solutions[0]) && solves(solutions[1]);
    }
  }

  lemma OrderedSolutionsDecide(p: Problem, solutions: seq<seq<CallIds>>)
    requires IsShaped(p) && |p.groups| == 1
    requires Extends([], solutions, value => IsOrderedSolution(p, value))
    requires Covers(solutions, value => IsOrderedSolution(p, value))
    ensures IsOrderedVerdict(p, VerdictOf(solutions))
  {
    hide IsOrderedSolution;
    var solves := value => IsOrderedSolution(p, value);
    SolutionsDecide(solutions, solves);
  }

  lemma ReachedSolutionsDecide(p: Problem, solutions: seq<seq<CallIds>>)
    requires Extends([], solutions, value => Reaches(p, 0, {}, [], value))
    requires Covers(solutions, value => Reaches(p, 0, {}, [], value))
    ensures IsVerdict(p, VerdictOf(solutions))
  {
    hide IsSolution, Reaches;
    forall value ensures Reaches(p, 0, {}, [], value) <==> IsSolution(p, value) {
      ReachesExactlySolutions(p, value);
    }
    var solves := value => IsSolution(p, value);
    SolutionsDecide(solutions, solves);
  }

  /** With distinct calls the single-group path gives the general verdict. */
  lemma SingleGroupAgrees(p: Problem, verdict: Verdict)
    requires IsShaped(p) && |p.groups| == 1 && HasDistinctCalls(p.messages)
    ensures IsOrderedVerdict(p, verdict) <==> IsVerdict(p, verdict)
  {
    hide IsSolution, IsOrderedSolution, IsShaped, HasDistinctCalls;
    forall value ensures IsOrderedSolution(p, value) <==> IsSolution(p, value) {
      OrderedSolutionsAreSolutions(p, value);
    }
    SameSolutionsSameVerdict(verdict, value => IsOrderedSolution(p, value), value => IsSolution(p, value));
  }

  lemma SameSolutionsSameVerdict(verdict: Verdict, solves: seq<CallIds> -> bool, too: seq<CallIds> -> bool)
    requires forall value :: solves(value) <==> too(value)
    ensures Decides(verdict, solves) <==> Decides(verdict, too)
  {
    if verdict.ManySolutions? && Decides(verdict, too) {
      var a, b :| too(a) && too(b) && a != b;
      assert solves(a) && solves(b);
    }
  }

  /** The two calls of a message at positions `i` and `j`, as a group of two actions that must both be kept. */
  function PairOf(messages: seq<Message>, m: nat, i: nat, j: nat): Problem
    requires m < |messages| && i < j < |messages[m]| && messages[m][i].args.Some? && messages[m][j].args.Some?
  {
    var a, b := messages[m][i], messages[m][j];
    Problem([[Action(a.toolName, a.args.value), Action(b.toolName, b.args.value)]], messages, [[true, true]])
  }

  lemma KeepsBoth(x: string, y: string)
    ensures Project([true, true], [x, y]) == [x, y]
  {
    assert Project([true], [y]) == [y];
    assert [true, true][1..] == [true] && [x, y][1..] == [y];
  }

  lemma PairIsOrdered(messages: seq<Message>, m: nat, i: nat, j: nat)
    requires m < |messages| && i < j < |messages[m]| && messages[m][i].args.Some? && messages[m][j].args.Some?
    ensures IsOrderedSolution(PairOf(messages, m, i, j), [[messages[m][i].callId, messages[m][j].callId]])
  {
    var p, x, y := PairOf(messages, m, i, j), messages[m][i].callId, messages[m][j].callId;
    EqualMeansIdentical(messages[m][i].args.value, messages[m][i].args.value);
    EqualMeansIdentical(messages[m][j].args.value, messages[m][j].args.value);
    assert IsMatch(false, p.groups[0], messages[m], 0, 0, [i, j]);
    assert IdsAt(messages[m], [i, j]) == [x, y] && p.slots[0][0..] == p.slots[0];
    KeepsBoth(x, y);
    assert IsSuffix(p.groups[0], messages[m], p.slots[0], 0, 0, [x, y]);
  }

  /** A complete assignment of two actions that are both kept never shows one ID twice. */
  lemma PairIsDistinct(p: Problem, x: string)
    requires |p.groups| == 1 && |p.groups[0]| == 2 && p.slots == [[true, true]]
    ensures !IsSolution(p, [[x, x]])
  {
    forall placements: seq<Placement> | IsAssignment(false, p, placements)
      ensures ProjectAll(p.slots, PlacedIds(false, p, 0, placements)) != [[x, x]]
    {
      var ids := PlacedIds(false, p, 0, placements);
      assert IsPlacement(false, p, p.groups[0 + 0], placements[0]);
      KeepsBoth(ids[0][0], ids[0][1]);
      assert ids[0] == [ids[0][0], ids[0][1]];
      assert ProjectAll(p.slots, ids)[0] == [ids[0][0], ids[0][1]];
      assert ids[0][0] != ids[0][1] by {
        assert NoRepeats(ids[0]);
      }
      assert [ids[0][0], ids[0][1]][0] != [ids[0][0], ids[0][1]][1];
      assert [x, x][0] == [x, x][1];
    }
  }

  /** A repeated ID among well-formed calls gives a group on which the two paths differ. */
  lemma RepeatedCallSpoilsAgreement(messages: seq<Message>, m: nat, i: nat, j: nat)
    requires m < |messages| && i < j < |messages[m]| && messages[m][i].args.Some? && messages[m][j].args.Some?
    requires messages[m][i].callId == messages[m][j].callId
    ensures
      var value := [[messages[m][i].callId, messages[m][j].callId]];
      IsOrderedSolution(PairOf(messages, m, i, j), value) && !IsSolution(PairOf(messages, m, i, j), value)
  {
    PairIsOrdered(messages, m, i, j);
    PairIsDistinct(PairOf(messages, m, i, j), messages[m][i].callId);
  }

  ghost predicate AgreesFor(messages: seq<Message>, group: Group, slots: seq<bool>, value: seq<CallIds>)
    requires |slots| == |group|
  {
    IsOrderedSolution(Problem([group], messages, [slots]), value) <==> IsSolution(Problem([group], messages, [slots]), value)
  }

  /** Whatever the group, the single-group path finds exactly the solutions of the general search. */
  ghost predicate AlwaysAgrees(messages: seq<Message>) {
    forall group, slots, value :: |slots| == |group| ==> AgreesFor(messages, group, slots, value)
  }

  /** It does so exactly when no message repeats a call ID among its well-formed calls. */
  lemma SingleGroupAgreesExactly(messages: seq<Message>)
    ensures AlwaysAgrees(messages) <==> HasDistinctCalls(messages)
  {
    if HasDistinctCalls(messages) {
      forall group, slots, value | |slots| == |group| ensures AgreesFor(messages, group, slots, value) {
        OrderedSolutionsAreSolutions(Problem([group], messages, [slots]), value);
      }
    } else {
      var m :| 0 <= m < |messages| && !ListsCallsOnce(messages[m]);
      var i, j :| 0 <= i < j < |messages[m]| && messages[m][i].args.Some? && messages[m][j].args.Some? && messages[m][i].callId == messages[m][j].callId;
      RepeatedCallSpoilsAgreement(messages, m, i, j);
      var p := PairOf(messages, m, i, j);
      assert !AgreesFor(messages, p.groups[0], p.slots[0], [[messages[m][i].callId, messages[m][j].callId]]);
    }
  }

  /** Without them it may not: a call listed twice serves two actions of one group. */
  lemma RepeatedCallServesTwoActions(action: Action, id: string)
    ensures
      var call := Candidate(id, action.name, Some(action.args));
      var p := Problem([[action, action]], [[call, call]], [[true, true]]);
      IsOrderedSolution(p, [[id, id]]) && IsVerdict(p, NoSolution)
  {
    var call := Candidate(id, action.name, Some(action.args));
    var p := Problem([[action, action]], [[call, call]], [[true, true]]);
    TwiceInOrder(action, id);
    forall placements ensures !IsAssignment(false, p, placements) {
      hide IsOrderedSolution, IsPlacement;
      if ArePlacements(false, p, 0, placements) {
        var ids := PlacedIds(false, p, 0, placements);
        assert IsPlacement(false, p, p.groups[0 + 0], placements[0]);
        assert ids[0][0] == id && ids[0][1] == id;
      }
    }
    hide IsOrderedSolution, IsAssignment;
  }

  lemma TwiceInOrder(action: Action, id: string)
    ensures
      var call := Candidate(id, action.name, Some(action.args));
      IsOrderedSolution(Problem([[action, action]], [[call, call]], [[true, true]]), [[id, id]])
  {
    var call := Candidate(id, action.name, Some(action.args));
    var p := Problem([[action, action]], [[call, call]], [[true, true]]);
    EqualMeansIdentical(action.args, action.args);
    assert [true][1..] == [] && [id][1..] == [];
    assert Project([true], [id]) == [id];
    assert IsMatch(false, p.groups[0], p.messages[0], 0, 0, [0, 1]);
    var kept := [true, true];
    assert IdsAt(p.messages[0], [0, 1]) == [id, id] && kept[0..] == kept;
    assert Project(kept, [id, id]) == [id, id] by {
      assert kept[1..] == [true] && [id, id][1..] == [id];
    }
    hide IsMatch, Project, IdsAt;
    assert IsSuffix(p.groups[0], p.messages[0], p.slots[0], 0, 0, [id, id]);
  }
}

/**
  The backtracking search over several groups. It keeps at most two distinct solutions and a step
  budget, and it still decides none, one or many exactly.
 */
module HitlSearch {
  import opened Outcomes
  import opened HitlModel

  const MaxSearchStates: nat := 100_000

  // ---------------------------------------------------------------- what the search can reach

  /** Groups `g` and later can be placed on unused calls so that everything chosen projects to `value`. */
  ghost predicate Reaches(p: Problem, g: nat, used: set<string>, selected: seq<CallIds>, value: seq<CallIds>)
    requires g <= |p.groups|
    decreases |p.groups| - g, 1
  {
    if g == |p.groups| then value == ProjectAll(p.slots, selected)
    else exists m: nat :: m < |p.messages| && ReachesIn(p, g, used, selected, m, [], 0, value)
  }

  /** ... with group `g` in message `m`, its first actions on `picked`, the others not before position `c`. */
  ghost predicate ReachesIn(
    p: Problem, g: nat, used: set<string>, selected: seq<CallIds>, m: nat, picked: CallIds, c: nat, value: seq<CallIds>)
    requires g < |p.groups| && m < |p.messages|
    decreases |p.groups| - g, 0
  {
    exists rest :: IsMatch(false, p.groups[g], p.messages[m], |picked|, c, rest)
                   && ReachesWith(p, g, used, selected, picked + IdsAt(p.messages[m], rest), value)
  }

  ghost predicate ReachesWith(p: Problem, g: nat, used: set<string>, selected: seq<CallIds>, ids: CallIds, value: seq<CallIds>)
    requires g < |p.groups|
    decreases |p.groups| - g - 1, 2
  {
    AreNew(ids, used) && Reaches(p, g + 1, used + SetOf(ids), selected + [ids], value)
  }

  lemma MessageReached(p: Problem, g: nat, used: set<string>, selected: seq<CallIds>, value: seq<CallIds>) returns (m: nat)
    requires g < |p.groups| && Reaches(p, g, used, selected, value)
    ensures m < |p.messages| && ReachesIn(p, g, used, selected, m, [], 0, value)
  {
    m :| m < |p.messages| && ReachesIn(p, g, used, selected, m, [], 0, value);
  }

  lemma ReachesLeaf(p: Problem, g: nat, used: set<string>, selected: seq<CallIds>, m: nat, picked: CallIds, c: nat, value: seq<CallIds>)
    requires g < |p.groups| && m < |p.messages| && |picked| == |p.groups[g]|
    ensures ReachesIn(p, g, used, selected, m, picked, c, value) <==> ReachesWith(p, g, used, selected, picked, value)
  {
    hide ReachesWith;
    var group, message := p.groups[g], p.messages[m];
    assert IsMatch(false, group, message, |picked|, c, []);
    assert picked + IdsAt(message, []) == picked;
  }

  lemma ReachesUsing(p: Problem, g: nat, used: set<string>, selected: seq<CallIds>, m: nat, picked: CallIds, c: nat, value: seq<CallIds>)
    requires g < |p.groups| && m < |p.messages| && |picked| < |p.groups[g]|
    requires c < |p.messages[m]| && Fits(false, p.groups[g][|picked|], p.messages[m][c])
    requires ReachesIn(p, g, used, selected, m, picked + [p.messages[m][c].callId], c + 1, value)
    ensures ReachesIn(p, g, used, selected, m, picked, c, value)
  {
    hide ReachesWith, Fits;
    var message, longer := p.messages[m], picked + [p.messages[m][c].callId];
    var rest :| IsMatch(false, p.groups[g], message, |longer|, c + 1, rest)
                && ReachesWith(p, g, used, selected, longer + IdsAt(message, rest), value);
    UsedFirst(false, p.groups[g], message, |picked|, c, rest);
    IdsUsedFirst(message, picked, c, rest);
  }

  lemma ReachesSkipping(p: Problem, g: nat, used: set<string>, selected: seq<CallIds>, m: nat, picked: CallIds, c: nat, value: seq<CallIds>)
    requires g < |p.groups| && m < |p.messages|
    requires ReachesIn(p, g, used, selected, m, picked, c + 1, value)
    ensures ReachesIn(p, g, used, selected, m, picked, c, value)
  {
    hide ReachesWith, Fits;
    var message := p.messages[m];
    var rest :| IsMatch(false, p.groups[g], message, |picked|, c + 1, rest)
                && ReachesWith(p, g, used, selected, picked + IdsAt(message, rest), value);
    assert IsMatch(false, p.groups[g], message, |picked|, c, rest);
  }

  lemma ReachesEitherWay(p: Problem, g: nat, used: set<string>, selected: seq<CallIds>, m: nat, picked: CallIds, c: nat, value: seq<CallIds>)
    requires g < |p.groups| && m < |p.messages| && |picked| < |p.groups[g]|
    requires ReachesIn(p, g, used, selected, m, picked, c, value)
    ensures c < |p.messages[m]|
    ensures || ReachesIn(p, g, used, selected, m, picked, c + 1, value)
            || (&& Fits(false, p.groups[g][|picked|], p.messages[m][c])
                && ReachesIn(p, g, used, selected, m, picked + [p.messages[m][c].callId], c + 1, value))
  {
    hide ReachesWith, Fits;
    var message, group := p.messages[m], p.groups[g];
    var rest :| IsMatch(false, group, message, |picked|, c, rest)
                && ReachesWith(p, g, used, selected, picked + IdsAt(message, rest), value);
    MatchStep(false, group, message, |picked|, c, rest);
    if !IsMatch(false, group, message, |picked|, c + 1, rest) {
      UsedFirst(false, group, message, |picked|, c, rest[1..]);
      assert rest == [c] + rest[1..];
      IdsUsedFirst(message, picked, c, rest[1..]);
      hide IdsAt, IsMatch;
    }
  }

  /** Past the last call nothing is reached; otherwise the next call is used or skipped. */
  lemma ReachesStep(p: Problem, g: nat, used: set<string>, selected: seq<CallIds>, m: nat, picked: CallIds, c: nat)
    requires g < |p.groups| && m < |p.messages| && |picked| < |p.groups[g]|
    ensures forall value :: ReachesIn(p, g, used, selected, m, picked, c, value) <==>
              && c < |p.messages[m]|
              && (|| ReachesIn(p, g, used, selected, m, picked, c + 1, value)
                  || (&& Fits(false, p.groups[g][|picked|], p.messages[m][c])
                      && ReachesIn(p, g, used, selected, m, picked + [p.messages[m][c].callId], c + 1, value)))
  {
    hide ReachesIn, Fits;
    forall value
      ensures ReachesIn(p, g, used, selected, m, picked, c, value) <==>
              && c < |p.messages[m]|
              && (|| ReachesIn(p, g, used, selected, m, picked, c + 1, value)
                  || (&& Fits(false, p.groups[g][|picked|], p.messages[m][c])
                      && ReachesIn(p, g, used, selected, m, picked + [p.messages[m][c].callId], c + 1, value)))
    {
      if ReachesIn(p, g, used, selected, m, picked, c, value) {
        ReachesEitherWay(p, g, used, selected, m, picked, c, value);
      } else if c < |p.messages[m]| {
        if ReachesIn(p, g, used, selected, m, picked, c + 1, value) {
          ReachesSkipping(p, g, used, selected, m, picked, c, value);
        } else if && Fits(false, p.groups[g][|picked|], p.messages[m][c])
                  && ReachesIn(p, g, used, selected, m, picked + [p.messages[m][c].callId], c + 1, value) {
          ReachesUsing(p, g, used, selected, m, picked, c, value);
        }
      }
    }
  }

  // ---------------------------------------------------------------- the size of the search

  /** The steps of searching everything from group `g` on, without stopping at a second solution. */
  function AssignSteps(p: Problem, g: nat, used: set<string>): nat
    requires g <= |p.groups|
    decreases |p.groups| - g, 2, 0, 0
  {
    if g == |p.groups| then 0 else MessageSteps(p, g, used, 0)
  }

  function MessageSteps(p: Problem, g: nat, used: set<string>, m: nat): nat
    requires g < |p.groups| && m <= |p.messages|
    decreases |p.groups| - g, 1, |p.messages| - m, 0
  {
    if m == |p.messages| then 0 else SearchSteps(p, g, used, m, [], 0) + MessageSteps(p, g, used, m + 1)
  }

  function SearchSteps(p: Problem, g: nat, used: set<string>, m: nat, picked: CallIds, c: nat): nat
    requires g < |p.groups| && m < |p.messages| && |picked| <= |p.groups[g]|
    decreases |p.groups| - g, 0, |p.groups[g]| - |picked|, |p.messages[m]| + 1
  {
    1 + if |picked| < |p.groups[g]| then CallSteps(p, g, used, m, picked, c)
        else if AreNew(picked, used) then AssignSteps(p, g + 1, used + SetOf(picked))
        else 0
  }

  function CallSteps(p: Problem, g: nat, used: set<string>, m: nat, picked: CallIds, c: nat): nat
    requires g < |p.groups| && m < |p.messages| && |picked| < |p.groups[g]|
    decreases |p.groups| - g, 0, |p.groups[g]| - |picked|, if c < |p.messages[m]| then |p.messages[m]| - c else 0
  {
    if c >= |p.messages[m]| then 0
    else
      var call := p.messages[m][c];
      1 + (if Fits(false, p.groups[g][|picked|], call) then SearchSteps(p, g, used, m, picked + [call.callId], c + 1) else 0)
        + CallSteps(p, g, used, m, picked, c + 1)
  }

  /** The number of states the whole search would visit. */
  function SearchSize(p: Problem): nat {
    AssignSteps(p, 0, {})
  }

  class GroupSearch {
    const p: Problem
    var steps: nat
    var solutions: seq<seq<CallIds>>
    var used: set<string>
    var selected: seq<CallIds>

    constructor (p: Problem)
      ensures this.p == p && solutions == [] && used == {} && selected == [] && steps == 0
    {
      this.p := p;
      steps, solutions, used, selected := 0, [], {}, [];
    }

    method CountStep() returns (within: bool)
      modifies this`steps
      ensures steps == old(steps) + 1 && (within <==> steps <= MaxSearchStates)
    {
      steps := steps + 1;
      return steps <= MaxSearchStates;
    }

    /** Place group `g` and the later ones; false when the budget is exceeded. */
    method Assign(g: nat) returns (within: bool)
      requires g == |selected| <= |p.groups| && |solutions| <= 1 && steps <= MaxSearchStates
      modifies this
      ensures within <==> steps <= MaxSearchStates
      ensures steps <= old(steps) + AssignSteps(p, g, old(used))
      ensures within && |solutions| <= 1 ==> steps == old(steps) + AssignSteps(p, g, old(used))
      ensures within ==> used == old(used) && selected == old(selected)
      ensures within ==> Extends(old(solutions), solutions, value => Reaches(p, g, old(used), old(selected), value))
      ensures within ==> Covers(solutions, value => Reaches(p, g, old(used), old(selected), value))
      decreases |p.groups| - g, 1, 0
    {
      if g == |p.groups| {
        var solution := ProjectAll(p.slots, selected);
        if solution !in solutions {
          solutions := solutions + [solution];
        }
        return true;
      }
      var m := 0;
      while m < |p.messages|
        invariant 0 <= m <= |p.messages| && used == old(used) && selected == old(selected) && |solutions| <= 1
        invariant steps <= MaxSearchStates && steps + MessageSteps(p, g, old(used), m) == old(steps) + AssignSteps(p, g, old(used))
        invariant Extends(old(solutions), solutions, value => Reaches(p, g, old(used), old(selected), value))
        invariant forall n: nat, value :: n < m && ReachesIn(p, g, old(used), old(selected), n, [], 0, value) ==> value in solutions
      {
        within := SearchFrom(g, m, [], 0);
        if !within {
          return false;
        }
        if |solutions| > 1 {
          return true;
        }
        m := m + 1;
      }
      forall value | Reaches(p, g, old(used), old(selected), value) ensures value in solutions {
        var n := MessageReached(p, g, old(used), old(selected), value);
      }
      return true;
    }

    /** Match the remaining actions of group `g` in message `m` from position `c`, placing later groups at each match. */
    method SearchFrom(g: nat, m: nat, picked: CallIds, c: nat) returns (within: bool)
      requires g == |selected| < |p.groups| && m < |p.messages| && |picked| <= |p.groups[g]| && |solutions| <= 1 && steps <= MaxSearchStates
      modifies this
      ensures within <==> steps <= MaxSearchStates
      ensures steps <= old(steps) + SearchSteps(p, g, old(used), m, picked, c)
      ensures within && |solutions| <= 1 ==> steps == old(steps) + SearchSteps(p, g, old(used), m, picked, c)
      ensures within ==> used == old(used) && selected == old(selected)
      ensures within ==> Extends(old(solutions), solutions, value => ReachesIn(p, g, old(used), old(selected), m, picked, c, value))
      ensures within ==> Covers(solutions, value => ReachesIn(p, g, old(used), old(selected), m, picked, c, value))
      decreases |p.groups| - g, 0, |p.groups[g]| - |picked|
    {
      hide ReachesIn, Fits;
      within := CountStep();
      if !within {
        return;
      }
      var group, message := p.groups[g], p.messages[m];
      if |picked| == |group| {
        forall value ensures ReachesIn(p, g, old(used), old(selected), m, picked, c, value) <==> ReachesWith(p, g, old(used), old(selected), picked, value) {
          ReachesLeaf(p, g, old(used), old(selected), m, picked, c, value);
        }
        if !AreNew(picked, used) {
          return true;
        }
        used, selected := used + SetOf(picked), selected + [picked];
        within := Assign(g + 1);
        if within {
          selected := selected[..|selected| - 1];
          used := used - SetOf(picked);
          assert used == old(used);
        }
        return;
      }
      var index := c;
      while index < |message|
        invariant c <= index && used == old(used) && selected == old(selected) && |solutions| <= 1
        invariant steps <= MaxSearchStates
        invariant steps + CallSteps(p, g, old(used), m, picked, index) == old(steps) + SearchSteps(p, g, old(used), m, picked, c)
        invariant Extends(old(solutions), solutions, value => ReachesIn(p, g, old(used), old(selected), m, picked, c, value))
        invariant forall value :: ReachesIn(p, g, old(used), old(selected), m, picked, c, value) ==>
                    value in solutions || ReachesIn(p, g, old(used), old(selected), m, picked, index, value)
        invariant forall value :: ReachesIn(p, g, old(used), old(selected), m, picked, index, value) ==>
                    ReachesIn(p, g, old(used), old(selected), m, picked, c, value)
        decreases |message| - index
      {
        within := CountStep();
        if !within {
          return;
        }
        ReachesStep(p, g, used, selected, m, picked, index);
        if Fits(false, group[|picked|], message[index]) {
          within := SearchFrom(g, m, picked + [message[index].callId], index + 1);
          if !within || |solutions| > 1 {
            return;
          }
        }
        index := index + 1;
      }
      ReachesStep(p, g, used, selected, m, picked, index);
      return true;
    }
  }

  // ---------------------------------------------------------------- reached values are solutions

  lemma {:induction false} ReachedIsCompletion(p: Problem, g: nat, used: set<string>, selected: seq<CallIds>, value: seq<CallIds>)
    returns (placements: seq<Placement>)
    requires g <= |p.groups| && Reaches(p, g, used, selected, value)
    ensures IsCompletion(false, p, g, used, placements)
    ensures value == ProjectAll(p.slots, selected + PlacedIds(false, p, g, placements))
    decreases |p.groups| - g
  {
    if g == |p.groups| {
      placements := [];
      assert selected + PlacedIds(false, p, g, []) == selected;
    } else {
      var m := MessageReached(p, g, used, selected, value);
      var at :| IsMatch(false, p.groups[g], p.messages[m], 0, 0, at)
                && ReachesWith(p, g, used, selected, [] + IdsAt(p.messages[m], at), value);
      var first, ids := Placement(m, at), IdsAt(p.messages[m], at);
      assert [] + ids == ids;
      var rest := ReachedIsCompletion(p, g + 1, used + SetOf(ids), selected + [ids], value);
      hide UsesCallsOnce, AvoidsAll, Reaches, PlacedIds, IsMatch, AreNew;
      PlacedFirst(false, p, g, first, rest);
      UsedOnceFirst(ids, PlacedIds(false, p, g + 1, rest), used);
      placements := [first] + rest;
      assert selected + [ids] + PlacedIds(false, p, g + 1, rest) == selected + PlacedIds(false, p, g, placements);
    }
  }

  lemma {:induction false} CompletionIsReached(p: Problem, g: nat, used: set<string>, selected: seq<CallIds>, placements: seq<Placement>)
    requires g <= |p.groups| && IsCompletion(false, p, g, used, placements)
    ensures Reaches(p, g, used, selected, ProjectAll(p.slots, selected + PlacedIds(false, p, g, placements)))
    decreases |p.groups| - g
  {
    var value := ProjectAll(p.slots, selected + PlacedIds(false, p, g, placements));
    if g == |p.groups| {
      assert selected + PlacedIds(false, p, g, placements) == selected;
    } else {
      PlacedRest(false, p, g, placements);
      var first, rest := placements[0], placements[1..];
      var ids := IdsAt(p.messages[first.message], first.at);
      PlacedFirst(false, p, g, first, rest);
      UsedOnceFirst(ids, PlacedIds(false, p, g + 1, rest), used);
      CompletionIsReached(p, g + 1, used + SetOf(ids), selected + [ids], rest);
      assert selected + [ids] + PlacedIds(false, p, g + 1, rest) == selected + PlacedIds(false, p, g, placements);
      assert [] + ids == ids;
      assert ReachesWith(p, g, used, selected, [] + IdsAt(p.messages[first.message], first.at), value);
      assert ReachesIn(p, g, used, selected, first.message, [], 0, value);
    }
  }

  /** The search reaches exactly the projections of complete assignments. */
  lemma ReachesExactlySolutions(p: Problem, value: seq<CallIds>)
    ensures Reaches(p, 0, {}, [], value) <==> IsSolution(p, value)
  {
    if Reaches(p, 0, {}, [], value) {
      var placements := ReachedIsCompletion(p, 0, {}, [], value);
      assert [] + PlacedIds(false, p, 0, placements) == PlacedIds(false, p, 0, placements);
      assert IsAssignment(false, p, placements);
    }
    if IsSolution(p, value) {
      var placements :| IsAssignment(false, p, placements) && value == ProjectAll(p.slots, PlacedIds(false, p, 0, placements));
      CompletionIsReached(p, 0, {}, [], placements);
      assert [] + PlacedIds(false, p, 0, placements) == PlacedIds(false, p, 0, placements);
    }
  }
}

/**
  Whether undecodable arguments matter: a search in which such a call could be any action of its
  name. When it finds nothing, no way of decoding those arguments could change a correlation.
 */
module HitlRelevance {
  import opened Outcomes
  import opened HitlModel
  import opened HitlSearch
  import opened HitlCorrelation

  function FirstMalformedIn(calls: seq<Candidate>): Option<Candidate> {
    if calls == [] then None
    else if calls[0].args.None? then Some(calls[0])
    else FirstMalformedIn(calls[1..])
  }

  function FirstMalformed(seen: Option<Candidate>, calls: seq<Candidate>): Option<Candidate> {
    if seen.Some? then seen else FirstMalformedIn(calls)
  }

  /** The first malformed call over several groups. */
  function FirstOverall(seen: Option<Candidate>, chosen: seq<seq<Candidate>>): Option<Candidate>
    decreases |chosen|
  {
    if chosen == [] then seen else FirstOverall(FirstMalformed(seen, chosen[0]), chosen[1..])
  }

  // ---------------------------------------------------------------- what the search can reach

  /** Groups `g` and later can be placed so that the first malformed call used is `found`. */
  ghost predicate Finds(p: Problem, g: nat, used: set<string>, seen: Option<Candidate>, found: Candidate)
    requires g <= |p.groups|
    decreases |p.groups| - g, 1
  {
    if g == |p.groups| then seen == Some(found)
    else exists m: nat :: m < |p.messages| && FindsIn(p, g, used, seen, m, [], 0, found)
  }

  ghost predicate FindsIn(
    p: Problem, g: nat, used: set<string>, seen: Option<Candidate>, m: nat, picked: seq<Candidate>, c: nat, found: Candidate)
    requires g < |p.groups| && m < |p.messages|
    decreases |p.groups| - g, 0
  {
    exists rest :: IsMatch(true, p.groups[g], p.messages[m], |picked|, c, rest)
                   && FindsWith(p, g, used, seen, picked + CallsAt(p.messages[m], rest), found)
  }

  ghost predicate FindsWith(p: Problem, g: nat, used: set<string>, seen: Option<Candidate>, calls: seq<Candidate>, found: Candidate)
    requires g < |p.groups|
    decreases |p.groups| - g - 1, 2
  {
    AreNew(IdsOf(calls), used) && Finds(p, g + 1, used + SetOf(IdsOf(calls)), FirstMalformed(seen, calls), found)
  }

  lemma MessageFound(p: Problem, g: nat, used: set<string>, seen: Option<Candidate>, found: Candidate) returns (m: nat)
    requires g < |p.groups| && Finds(p, g, used, seen, found)
    ensures m < |p.messages| && FindsIn(p, g, used, seen, m, [], 0, found)
  {
    m :| m < |p.messages| && FindsIn(p, g, used, seen, m, [], 0, found);
  }

  lemma FindsLeaf(p: Problem, g: nat, used: set<string>, seen: Option<Candidate>, m: nat, picked: seq<Candidate>, c: nat, found: Candidate)
    requires g < |p.groups| && m < |p.messages| && |picked| == |p.groups[g]|
    ensures FindsIn(p, g, used, seen, m, picked, c, found) <==>
            AreNew(IdsOf(picked), used) && Finds(p, g + 1, used + SetOf(IdsOf(picked)), FirstMalformed(seen, picked), found)
  {
    assert FindsWith(p, g, used, seen, picked, found) <==>
           AreNew(IdsOf(picked), used) && Finds(p, g + 1, used + SetOf(IdsOf(picked)), FirstMalformed(seen, picked), found);
    hide FindsWith;
    assert IsMatch(true, p.groups[g], p.messages[m], |picked|, c, []);
    assert picked + CallsAt(p.messages[m], []) == picked;
  }

  lemma FindsUsing(p: Problem, g: nat, used: set<string>, seen: Option<Candidate>, m: nat, picked: seq<Candidate>, c: nat, found: Candidate)
    requires g < |p.groups| && m < |p.messages| && |picked| < |p.groups[g]|
    requires c < |p.messages[m]| && Fits(true, p.groups[g][|picked|], p.messages[m][c])
    requires FindsIn(p, g, used, seen, m, picked + [p.messages[m][c]], c + 1, found)
    ensures FindsIn(p, g, used, seen, m, picked, c, found)
  {
    hide FindsWith, Fits;
    var message, longer := p.messages[m], picked + [p.messages[m][c]];
    var rest :| IsMatch(true, p.groups[g], message, |longer|, c + 1, rest)
                && FindsWith(p, g, used, seen, longer + CallsAt(message, rest), found);
    UsedFirst(true, p.groups[g], message, |picked|, c, rest);
    assert picked + CallsAt(message, [c] + rest) == longer + CallsAt(message, rest);
  }

  lemma FindsSkipping(p: Problem, g: nat, used: set<string>, seen: Option<Candidate>, m: nat, picked: seq<Candidate>, c: nat, found: Candidate)
    requires g < |p.groups| && m < |p.messages|
    requires FindsIn(p, g, used, seen, m, picked, c + 1, found)
    ensures FindsIn(p, g, used, seen, m, picked, c, found)
  {
    hide FindsWith, Fits;
    var message := p.messages[m];
    var rest :| IsMatch(true, p.groups[g], message, |picked|, c + 1, rest)
                && FindsWith(p, g, used, seen, picked + CallsAt(message, rest), found);
    assert IsMatch(true, p.groups[g], message, |picked|, c, rest);
  }

  lemma FindsEitherWay(p: Problem, g: nat, used: set<string>, seen: Option<Candidate>, m: nat, picked: seq<Candidate>, c: nat, found: Candidate)
    requires g < |p.groups| && m < |p.messages| && |picked| < |p.groups[g]|
    requires FindsIn(p, g, used, seen, m, picked, c, found)
    ensures c < |p.messages[m]|
    ensures || FindsIn(p, g, used, seen, m, picked, c + 1, found)
            || (&& Fits(true, p.groups[g][|picked|], p.messages[m][c])
                && FindsIn(p, g, used, seen, m, picked + [p.messages[m][c]], c + 1, found))
  {
    hide FindsWith, Fits;
    var message, group := p.messages[m], p.groups[g];
    var rest :| IsMatch(true, group, message, |picked|, c, rest)
                && FindsWith(p, g, used, seen, picked + CallsAt(message, rest), found);
    MatchStep(true, group, message, |picked|, c, rest);
    if !IsMatch(true, group, message, |picked|, c + 1, rest) {
      UsedFirst(true, group, message, |picked|, c, rest[1..]);
      assert rest == [c] + rest[1..];
      assert picked + CallsAt(message, rest) == picked + [message[c]] + CallsAt(message, rest[1..]);
    }
  }

  // ---------------------------------------------------------------- the size of the search

  /** The steps of placing everything from group `g` on, without stopping at a malformed call. */
  function PlaceSteps(p: Problem, g: nat, used: set<string>): nat
    requires g <= |p.groups|
    decreases |p.groups| - g, 2, 0, 0
  {
    1 + if g == |p.groups| then 0 else PlaceMessageSteps(p, g, used, 0)
  }

  function PlaceMessageSteps(p: Problem, g: nat, used: set<string>, m: nat): nat
    requires g < |p.groups| && m <= |p.messages|
    decreases |p.groups| - g, 1, |p.messages| - m, 0
  {
    if m == |p.messages| then 0 else PlaceSearchSteps(p, g, used, m, [], 0) + PlaceMessageSteps(p, g, used, m + 1)
  }

  function PlaceSearchSteps(p: Problem, g: nat, used: set<string>, m: nat, picked: seq<Candidate>, c: nat): nat
    requires g < |p.groups| && m < |p.messages| && |picked| <= |p.groups[g]|
    decreases |p.groups| - g, 0, |p.groups[g]| - |picked|, |p.messages[m]| + 1
  {
    1 + if |picked| < |p.groups[g]| then PlaceCallSteps(p, g, used, m, picked, c)
        else if AreNew(IdsOf(picked), used) then PlaceSteps(p, g + 1, used + SetOf(IdsOf(picked)))
        else 0
  }

  function PlaceCallSteps(p: Problem, g: nat, used: set<string>, m: nat, picked: seq<Candidate>, c: nat): nat
    requires g < |p.groups| && m < |p.messages| && |picked| < |p.groups[g]|
    decreases |p.groups| - g, 0, |p.groups[g]| - |picked|, if c < |p.messages[m]| then |p.messages[m]| - c else 0
  {
    if c >= |p.messages[m]| then 0
    else
      var call := p.messages[m][c];
      1 + (if Fits(true, p.groups[g][|picked|], call) then PlaceSearchSteps(p, g, used, m, picked + [call], c + 1) else 0)
        + PlaceCallSteps(p, g, used, m, picked, c + 1)
  }

  // ---------------------------------------------------------------- the search

  class RelevanceSearch {
    const p: Problem
    var steps: nat
    var used: set<string>

    constructor (p: Problem)
      ensures this.p == p && used == {} && steps == 0
    {
      this.p := p;
      steps, used := 0, {};
    }

    method CountStep() returns (within: bool)
      modifies this`steps
      ensures steps == old(steps) + 1 && (within <==> steps <= MaxSearchStates)
    {
      steps := steps + 1;
      return steps <= MaxSearchStates;
    }

    /** A malformed call some placement uses; none when there is no such placement. */
    method Assign(g: nat, seen: Option<Candidate>) returns (within: bool, found: Option<Candidate>)
      requires g <= |p.groups| && steps <= MaxSearchStates
      modifies this
      ensures within <==> steps <= MaxSearchStates
      ensures steps <= old(steps) + PlaceSteps(p, g, old(used))
      ensures within && found.None? ==> steps == old(steps) + PlaceSteps(p, g, old(used))
      ensures within ==> used == old(used)
      ensures within && found.Some? ==> Finds(p, g, old(used), seen, found.value)
      ensures within && found.None? ==> forall x :: !Finds(p, g, old(used), seen, x)
      decreases |p.groups| - g, 1, 0
    {
      within := CountStep();
      if !within {
        return false, None;
      }
      if g == |p.groups| {
        return true, seen;
      }
      var m := 0;
      while m < |p.messages|
        invariant 0 <= m <= |p.messages| && used == old(used) && steps <= MaxSearchStates
        invariant steps + PlaceMessageSteps(p, g, old(used), m) == old(steps) + PlaceSteps(p, g, old(used))
        invariant forall n: nat, x :: n < m ==> !FindsIn(p, g, old(used), seen, n, [], 0, x)
      {
        within, found := SearchFrom(g, m, [], 0, seen);
        if !within || found.Some? {
          return;
        }
        m := m + 1;
      }
      forall x ensures !Finds(p, g, old(used), seen, x) {
        if Finds(p, g, old(used), seen, x) {
          var n := MessageFound(p, g, old(used), seen, x);
          assert false;
        }
      }
      return true, None;
    }

    method SearchFrom(g: nat, m: nat, picked: seq<Candidate>, c: nat, seen: Option<Candidate>)
      returns (within: bool, found: Option<Candidate>)
      requires g < |p.groups| && m < |p.messages| && |picked| <= |p.groups[g]| && steps <= MaxSearchStates
      modifies this
      ensures within <==> steps <= MaxSearchStates
      ensures steps <= old(steps) + PlaceSearchSteps(p, g, old(used), m, picked, c)
      ensures within && found.None? ==> steps == old(steps) + PlaceSearchSteps(p, g, old(used), m, picked, c)
      ensures within ==> used == old(used)
      ensures within && found.Some? ==> FindsIn(p, g, old(used), seen, m, picked, c, found.value)
      ensures within && found.None? ==> forall x :: !FindsIn(p, g, old(used), seen, m, picked, c, x)
      decreases |p.groups| - g, 0, |p.groups[g]| - |picked|
    {
      hide FindsIn, Fits;
      within := CountStep();
      if !within {
        return false, None;
      }
      var group, message := p.groups[g], p.messages[m];
      if |picked| == |group| {
        var ids := IdsOf(picked);
        forall x ensures FindsIn(p, g, old(used), seen, m, picked, c, x) <==>
                         AreNew(ids, old(used)) && Finds(p, g + 1, old(used) + SetOf(ids), FirstMalformed(seen, picked), x)
        {
          FindsLeaf(p, g, old(used), seen, m, picked, c, x);
        }
        if !AreNew(ids, used) {
          return true, None;
        }
        used := used + SetOf(ids);
        within, found := Assign(g + 1, FirstMalformed(seen, picked));
        if within {
          used := used - SetOf(ids);
          assert used == old(used);
        }
        return;
      }
      var index := c;
      while index < |message|
        invariant c <= index && used == old(used) && steps <= MaxSearchStates
        invariant steps + PlaceCallSteps(p, g, old(used), m, picked, index) == old(steps) + PlaceSearchSteps(p, g, old(used), m, picked, c)
        invariant forall x :: FindsIn(p, g, old(used), seen, m, picked, c, x) <==> FindsIn(p, g, old(used), seen, m, picked, index, x)
        decreases |message| - index
      {
        within := CountStep();
        if !within {
          return false, None;
        }
        FindsStep(p, g, used, seen, m, picked, index);
        if Fits(true, group[|picked|], message[index]) {
          within, found := SearchFrom(g, m, picked + [message[index]], index + 1, seen);
          if !within || found.Some? {
            return;
          }
        }
        index := index + 1;
      }
      FindsStep(p, g, used, seen, m, picked, index);
      return true, None;
    }
  }

  lemma FindsStep(p: Problem, g: nat, used: set<string>, seen: Option<Candidate>, m: nat, picked: seq<Candidate>, c: nat)
    requires g < |p.groups| && m < |p.messages| && |picked| < |p.groups[g]|
    ensures forall x :: FindsIn(p, g, used, seen, m, picked, c, x) <==>
              && c < |p.messages[m]|
              && (|| FindsIn(p, g, used, seen, m, picked, c + 1, x)
                  || (&& Fits(true, p.groups[g][|picked|], p.messages[m][c])
                      && FindsIn(p, g, used, seen, m, picked + [p.messages[m][c]], c + 1, x)))
  {
    hide FindsIn, Fits;
    forall x
      ensures FindsIn(p, g, used, seen, m, picked, c, x) <==>
              && c < |p.messages[m]|
              && (|| FindsIn(p, g, used, seen, m, picked, c + 1, x)
                  || (&& Fits(true, p.groups[g][|picked|], p.messages[m][c])
                      && FindsIn(p, g, used, seen, m, picked + [p.messages[m][c]], c + 1, x)))
    {
      if FindsIn(p, g, used, seen, m, picked, c, x) {
        FindsEitherWay(p, g, used, seen, m, picked, c, x);
      } else if c < |p.messages[m]| {
        if FindsIn(p, g, used, seen, m, picked, c + 1, x) {
          FindsSkipping(p, g, used, seen, m, picked, c, x);
        } else if && Fits(true, p.groups[g][|picked|], p.messages[m][c])
                  && FindsIn(p, g, used, seen, m, picked + [p.messages[m][c]], c + 1, x) {
          FindsUsing(p, g, used, seen, m, picked, c, x);
        }
      }
    }
  }

  // ---------------------------------------------------------------- what it finds

  lemma {:induction false} FoundIsCompletion(p: Problem, g: nat, used: set<string>, seen: Option<Candidate>, found: Candidate)
    returns (placements: seq<Placement>)
    requires g <= |p.groups| && Finds(p, g, used, seen, found)
    ensures IsCompletion(true, p, g, used, placements)
    ensures FirstOverall(seen, AllCalls(true, p, g, placements)) == Some(found)
    decreases |p.groups| - g
  {
    if g == |p.groups| {
      placements := [];
    } else {
      var m := MessageFound(p, g, used, seen, found);
      var at :| IsMatch(true, p.groups[g], p.messages[m], 0, 0, at)
                && FindsWith(p, g, used, seen, [] + CallsAt(p.messages[m], at), found);
      var first, calls := Placement(m, at), CallsAt(p.messages[m], at);
      assert [] + calls == calls;
      var rest := FoundIsCompletion(p, g + 1, used + SetOf(IdsOf(calls)), FirstMalformed(seen, calls), found);
      hide UsesCallsOnce, AvoidsAll, Finds, PlacedIds, AllCalls, IsMatch, AreNew;
      PlacedFirst(true, p, g, first, rest);
      UsedOnceFirst(IdsOf(calls), PlacedIds(true, p, g + 1, rest), used);
      placements := [first] + rest;
      assert ([calls] + AllCalls(true, p, g + 1, rest))[1..] == AllCalls(true, p, g + 1, rest);
    }
  }

  lemma {:induction false} CompletionIsFound(
    p: Problem, g: nat, used: set<string>, seen: Option<Candidate>, placements: seq<Placement>, found: Candidate)
    requires g <= |p.groups| && IsCompletion(true, p, g, used, placements)
    requires FirstOverall(seen, AllCalls(true, p, g, placements)) == Some(found)
    ensures Finds(p, g, used, seen, found)
    decreases |p.groups| - g
  {
    if g < |p.groups| {
      PlacedRest(true, p, g, placements);
      var first, rest := placements[0], placements[1..];
      var calls := PlacedCalls(p, first);
      PlacedFirst(true, p, g, first, rest);
      UsedOnceFirst(IdsOf(calls), PlacedIds(true, p, g + 1, rest), used);
      assert ([calls] + AllCalls(true, p, g + 1, rest))[1..] == AllCalls(true, p, g + 1, rest);
      CompletionIsFound(p, g + 1, used + SetOf(IdsOf(calls)), FirstMalformed(seen, calls), rest, found);
      assert [] + calls == calls;
      assert FindsWith(p, g, used, seen, [] + CallsAt(p.messages[first.message], first.at), found);
      assert FindsIn(p, g, used, seen, first.message, [], 0, found);
    }
  }

  predicate HasMalformed(calls: seq<Candidate>) {
    exists i :: 0 <= i < |calls| && calls[i].args.None?
  }

  lemma {:induction false} FirstMalformedInIsFirst(calls: seq<Candidate>)
    ensures FirstMalformedIn(calls).Some? <==> HasMalformed(calls)
    ensures FirstMalformedIn(calls).Some? ==> FirstMalformedIn(calls).value in calls && FirstMalformedIn(calls).value.args.None?
  {
    if calls != [] {
      FirstMalformedInIsFirst(calls[1..]);
      assert calls == [calls[0]] + calls[1..];
      if HasMalformed(calls[1..]) {
        var i :| 0 <= i < |calls[1..]| && calls[1..][i].args.None?;
        assert calls[i + 1].args.None?;
      }
    }
  }

  predicate UsesMalformed(chosen: seq<seq<Candidate>>) {
    exists g :: 0 <= g < |chosen| && HasMalformed(chosen[g])
  }

  lemma {:induction false} FirstOverallIsUsed(seen: Option<Candidate>, chosen: seq<seq<Candidate>>)
    ensures FirstOverall(seen, chosen).Some? <==> seen.Some? || UsesMalformed(chosen)
    ensures seen.Some? ==> FirstOverall(seen, chosen) == seen
    ensures seen.None? && FirstOverall(seen, chosen).Some? ==>
              var x := FirstOverall(seen, chosen).value; x.args.None? && exists g :: 0 <= g < |chosen| && x in chosen[g]
    decreases |chosen|
  {
    if chosen != [] {
      FirstMalformedInIsFirst(chosen[0]);
      var rest := chosen[1..];
      FirstOverallIsUsed(FirstMalformed(seen, chosen[0]), rest);
      assert forall g :: 0 <= g < |rest| ==> rest[g] == chosen[g + 1];
      if UsesMalformed(rest) {
        var g :| 0 <= g < |rest| && HasMalformed(rest[g]);
        assert HasMalformed(chosen[g + 1]);
      }
    }
  }

  /** A relaxed complete assignment uses the malformed call `found`. */
  ghost predicate IsRelevant(p: Problem, found: Candidate) {
    found.args.None? && exists placements :: IsAssignment(true, p, placements) && UsesCall(AllCalls(true, p, 0, placements), found)
  }

  predicate UsesCall(chosen: seq<seq<Candidate>>, call: Candidate) {
    exists g :: 0 <= g < |chosen| && call in chosen[g]
  }

  /** Some relaxed complete assignment uses a malformed call. */
  ghost predicate MalformedMatters(p: Problem) {
    exists placements :: IsAssignment(true, p, placements) && UsesMalformed(AllCalls(true, p, 0, placements))
  }

  lemma FoundIsRelevant(p: Problem, found: Candidate)
    requires Finds(p, 0, {}, None, found)
    ensures IsRelevant(p, found) && MalformedMatters(p)
  {
    var placements := FoundIsCompletion(p, 0, {}, None, found);
    assert IsAssignment(true, p, placements);
    FirstOverallIsUsed(None, AllCalls(true, p, 0, placements));
  }

  lemma RelevantIsFound(p: Problem)
    requires MalformedMatters(p)
    ensures exists found :: Finds(p, 0, {}, None, found)
  {
    var placements: seq<Placement> :| IsAssignment(true, p, placements) && UsesMalformed(AllCalls(true, p, 0, placements));
    FirstOverallIsUsed(None, AllCalls(true, p, 0, placements));
    var found := FirstOverall(None, AllCalls(true, p, 0, placements)).value;
    CompletionIsFound(p, 0, {}, None, placements, found);
  }

  /** The public operation: it answers exactly whether malformed arguments matter, within its budget. */
  method RelevantMalformedCandidate(groups: seq<Group>, messages: seq<Message>)
    returns (r: Outcome<Option<Candidate>, HitlError>)
    ensures
      var p := Problem(groups, messages, AllSlots(groups));
      match r
      case Err(error) => error == BudgetExceeded && groups != [] && messages != [] && PlaceSteps(p, 0, {}) > 100_000
      case Ok(None) => !MalformedMatters(p) && (groups == [] || messages == [] || PlaceSteps(p, 0, {}) <= 100_000)
      case Ok(Some(found)) => IsRelevant(p, found)
  {
    var p := Problem(groups, messages, AllSlots(groups));
    if groups == [] || messages == [] {
      NothingToPlace(p);
      return Ok(None);
    }
    hide Finds, IsRelevant, MalformedMatters, PlaceSteps;
    var search := new RelevanceSearch(p);
    var within, found := search.Assign(0, None);
    if !within {
      return Err(BudgetExceeded);
    }
    if found.Some? {
      FoundIsRelevant(p, found.value);
    } else if MalformedMatters(p) {
      RelevantIsFound(p);
      assert false;
    }
    return Ok(found);
  }

  lemma NothingToPlace(p: Problem)
    requires p.groups == [] || p.messages == []
    ensures !MalformedMatters(p)
  {
    hide IsMatch;
    forall placements: seq<Placement>
      ensures !(IsAssignment(true, p, placements) && UsesMalformed(AllCalls(true, p, 0, placements)))
    {
      if p.groups != [] && |placements| == |p.groups| {
        assert !IsPlacement(true, p, p.groups[0 + 0], placements[0]);
      }
    }
  }

  // ---------------------------------------------------------------- decoding malformed arguments

  /** The call with its arguments decoded in some way, if they were malformed. */
  predicate CouldBe(call: Candidate, decoded: Candidate) {
    && decoded.callId == call.callId
    && decoded.toolName == call.toolName
    && (call.args.Some? ==> decoded == call)
  }

  predicate CouldBeMessage(message: Message, decoded: Message) {
    |decoded| == |message| && forall c :: 0 <= c < |message| ==> CouldBe(message[c], decoded[c])
  }

  predicate CouldBeMessages(messages: seq<Message>, decoded: seq<Message>) {
    |decoded| == |messages| && forall m :: 0 <= m < |messages| ==> CouldBeMessage(messages[m], decoded[m])
  }

  lemma DecodedMatchIsRelaxed(group: Group, message: Message, decoded: Message, at: seq<nat>)
    requires CouldBeMessage(message, decoded) && IsMatch(false, group, decoded, 0, 0, at)
    ensures IsMatch(true, group, message, 0, 0, at)
    ensures IdsAt(message, at) == IdsAt(decoded, at)
    ensures !HasMalformed(CallsAt(message, at)) ==> IsMatch(false, group, message, 0, 0, at)
  {
    forall i | 0 <= i < |at|
      ensures at[i] < |message| && Fits(true, group[0 + i], message[at[i]])
      ensures message[at[i]].args.Some? ==> Fits(false, group[0 + i], message[at[i]])
    {
      assert 0 <= at[i] < |decoded| && Fits(false, group[0 + i], decoded[at[i]]);
      assert CouldBe(message[at[i]], decoded[at[i]]);
    }
    var calls := CallsAt(message, at);
    assert forall i :: 0 <= i < |at| ==> calls[i] == message[at[i]];
  }

  lemma DecodedMatchSurvives(group: Group, message: Message, decoded: Message, at: seq<nat>)
    requires CouldBeMessage(message, decoded) && IsMatch(false, group, message, 0, 0, at)
    ensures IsMatch(false, group, decoded, 0, 0, at)
    ensures IdsAt(message, at) == IdsAt(decoded, at)
  {
    forall i | 0 <= i < |at|
      ensures at[i] < |message| && decoded[at[i]] == message[at[i]]
    {
      assert 0 <= at[i] < |message| && Fits(false, group[0 + i], message[at[i]]);
      assert CouldBe(message[at[i]], decoded[at[i]]);
    }
  }

  lemma DecodedAssignmentIsRelaxed(p: Problem, q: Problem, placements: seq<Placement>)
    requires q == p.(messages := q.messages) && CouldBeMessages(p.messages, q.messages)
    requires IsAssignment(false, q, placements) && !MalformedMatters(p)
    ensures IsAssignment(false, p, placements) && PlacedIds(false, p, 0, placements) == PlacedIds(false, q, 0, placements)
  {
    hide Fits, CouldBeMessage, UsesCallsOnce, HasMalformed;
    forall i | 0 <= i < |placements|
      ensures IsPlacement(true, p, p.groups[0 + i], placements[i])
      ensures IdsOf(PlacedCalls(p, placements[i])) == PlacedIds(false, q, 0, placements)[i]
      ensures !HasMalformed(PlacedCalls(p, placements[i])) ==> IsPlacement(false, p, p.groups[0 + i], placements[i])
    {
      assert IsPlacement(false, q, q.groups[0 + i], placements[i]);
      var m, at := placements[i].message, placements[i].at;
      assert CouldBeMessage(p.messages[m], q.messages[m]);
      DecodedMatchIsRelaxed(p.groups[i], p.messages[m], q.messages[m], at);
    }
    assert ArePlacements(true, p, 0, placements);
    assert PlacedIds(true, p, 0, placements) == PlacedIds(false, q, 0, placements);
    var chosen := AllCalls(true, p, 0, placements);
    forall i | 0 <= i < |placements| ensures !HasMalformed(PlacedCalls(p, placements[i])) {
      assert chosen[i] == PlacedCalls(p, placements[i]);
      assert !UsesMalformed(chosen);
    }
    assert PlacedIds(false, p, 0, placements) == PlacedIds(false, q, 0, placements);
  }

  lemma AssignmentSurvivesDecoding(p: Problem, q: Problem, placements: seq<Placement>)
    requires q == p.(messages := q.messages) && CouldBeMessages(p.messages, q.messages)
    requires IsAssignment(false, p, placements)
    ensures IsAssignment(false, q, placements) && PlacedIds(false, p, 0, placements) == PlacedIds(false, q, 0, placements)
  {
    hide Fits, CouldBeMessage, UsesCallsOnce;
    forall i | 0 <= i < |placements|
      ensures IsPlacement(false, q, q.groups[0 + i], placements[i])
      ensures IdsOf(PlacedCalls(q, placements[i])) == PlacedIds(false, p, 0, placements)[i]
    {
      assert IsPlacement(false, p, p.groups[0 + i], placements[i]);
      var m, at := placements[i].message, placements[i].at;
      assert CouldBeMessage(p.messages[m], q.messages[m]);
      DecodedMatchSurvives(p.groups[i], p.messages[m], q.messages[m], at);
    }
    assert ArePlacements(false, q, 0, placements);
    assert PlacedIds(false, p, 0, placements) == PlacedIds(false, q, 0, placements);
  }

  /** If malformed arguments do not matter, no way of decoding them changes the solutions, hence the verdict. */
  lemma DecodingChangesNothing(p: Problem, q: Problem, value: seq<CallIds>)
    requires q == p.(messages := q.messages) && CouldBeMessages(p.messages, q.messages) && !MalformedMatters(p)
    ensures IsSolution(q, value) <==> IsSolution(p, value)
  {
    hide CouldBeMessages, MalformedMatters, ArePlacements, UsesCallsOnce;
    if IsSolution(q, value) {
      var placements: seq<Placement> :| IsAssignment(false, q, placements) && value == ProjectAll(q.slots, PlacedIds(false, q, 0, placements));
      DecodedAssignmentIsRelaxed(p, q, placements);
    }
    if IsSolution(p, value) {
      var placements: seq<Placement> :| IsAssignment(false, p, placements) && value == ProjectAll(p.slots, PlacedIds(false, p, 0, placements));
      AssignmentSurvivesDecoding(p, q, placements);
    }
  }

  lemma DecodingKeepsTheVerdict(p: Problem, q: Problem, verdict: Verdict)
    requires q == p.(messages := q.messages) && CouldBeMessages(p.messages, q.messages) && !MalformedMatters(p)
    ensures IsVerdict(q, verdict) <==> IsVerdict(p, verdict)
  {
    hide IsSolution, MalformedMatters, CouldBeMessages;
    forall value ensures IsSolution(q, value) <==> IsSolution(p, value) {
      DecodingChangesNothing(p, q, value);
    }
    SameSolutionsSameVerdict(verdict, value => IsSolution(q, value), value => IsSolution(p, value));
  }
}

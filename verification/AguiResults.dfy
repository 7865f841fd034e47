/**
  Results and chunks over whole runs, said from the parts themselves: when a second result for a call is
  a replay, and what a chunk says.
 */
module AguiResults {
  import opened Outcomes
  import opened AguiEvents
  import opened AguiState

  /** The result's own message ID, or the one made from its call. */
  function MessageIdOf(m: ToolMessage): string {
    match m.messageId
    case Some(id) => if id == "" then "tool-result:" + m.callId else id
    case None => "tool-result:" + m.callId
  }

  /** The name a result goes by when its call is known by no name. */
  function OwnName(m: ToolMessage): string {
    match m.name
    case Some(name) => if name == "" then "tool" else name
    case None => "tool"
  }

  /** The name recorded with a result. */
  function RecordedName(names: map<ToolId, string>, tool: ToolId, m: ToolMessage): string {
    if tool in names then names[tool] else OwnName(m)
  }

  /** A later result does not contradict the recorded name. */
  predicate AgreesOnName(names: map<ToolId, string>, tool: ToolId, recorded: string, m: ToolMessage) {
    if tool in names then names[tool] == recorded && (m.name.None? || m.name.value == recorded)
    else OwnName(m) == recorded
  }

  ghost function StateBefore(expose: bool, prior: set<ToolId>, parts: seq<Part>, i: nat): State
    requires i <= |parts|
  {
    StateAfter(expose, NewState(prior), parts[..i])
  }

  lemma {:induction false} ConvertedBefore(expose: bool, s: State, parts: seq<Part>, i: nat, n: nat)
    requires i < n <= |parts| && AllConverted(expose, s, parts[..n])
    ensures IsConverted(StateAfter(expose, s, parts[..i]), parts[i])
    decreases n
  {
    NextPart(expose, s, parts, n - 1);
    if i < n - 1 {
      ConvertedBefore(expose, s, parts, i, n - 1);
    }
  }

  /** The first result of a call is recorded with its content, its message ID and the call's name. */
  lemma FirstResultIsRecorded(s: State, ns: Namespace, m: ToolMessage)
    requires NamesAreReal(s.names) && FitsResult(s, ns, m) && ToolId(ns, m.callId) !in s.results
    ensures
      var tool, after := ToolId(ns, m.callId), AfterResult(s, ns, m);
      && tool in after.results
      && after.results[tool] == Fingerprint(MessageId(ns, MessageIdOf(m)), RecordedName(s.names, tool, m), m.content)
      && (tool in s.names || tool !in s.started ==> tool in after.names && after.names[tool] == RecordedName(s.names, tool, m))
  {
    var tool := ToolId(ns, m.callId);
    WithoutToolsKeeps(s.(messages := s.messages - {ns}, reasoning := Outside(s.reasoning, ns)), {tool});
    hide WithoutTools, Outside;
  }

  /** A result for a call that has one is accepted exactly as a replay of it. */
  lemma SecondResultIsReplay(s: State, ns: Namespace, m: ToolMessage, first: ToolMessage, recorded: string)
    requires NamesAreReal(s.names) && m.callId == first.callId && ToolId(ns, m.callId) in s.results
    requires s.results[ToolId(ns, m.callId)] == Fingerprint(MessageId(ns, MessageIdOf(first)), recorded, first.content)
    ensures
      FitsResult(s, ns, m) <==>
        m.content == first.content && MessageIdOf(m) == MessageIdOf(first) && AgreesOnName(s.names, ToolId(ns, m.callId), recorded, m)
  {
  }

  /** Two results for one call, whatever came between them. */
  lemma TwoResults(s: State, t: State, ns: Namespace, first: ToolMessage, second: ToolMessage)
    requires NamesAreReal(s.names) && FitsResult(s, ns, first) && ToolId(ns, first.callId) !in s.results
    requires first.callId == second.callId && Remembers(AfterResult(s, ns, first), t)
    ensures
      var tool := ToolId(ns, first.callId);
      var recorded := RecordedName(s.names, tool, first);
      && (FitsResult(t, ns, second) <==>
            second.content == first.content && MessageIdOf(second) == MessageIdOf(first) && AgreesOnName(t.names, tool, recorded, second))
      && (tool in s.names || tool !in s.started ==> (AgreesOnName(t.names, tool, recorded, second) <==> second.name.None? || second.name == Some(recorded)))
      && AfterResult(t, ns, second) == t && ResultEvents(t, ns, second) == []
  {
    var tool := ToolId(ns, first.callId);
    FirstResultIsRecorded(s, ns, first);
    ResultsStay(AfterResult(s, ns, first), t, tool);
    assert NamesAreReal(t.names);
    hide FitsResult, AfterResult, HistoryCovers, MessageIdOf, RecordedName, FingerprintOf, Remembers, NamesAreReal, ResultEvents;
    SecondResultIsReplay(t, ns, second, first, RecordedName(s.names, tool, first));
    ReplayChangesNothing(t, ns, second);
  }

  /**
    Two results for one call in a run: the later one is accepted exactly when content and message ID are
    equal and the names agree, and either way it changes nothing and publishes nothing.
   */
  lemma SecondResultOfACall(expose: bool, prior: set<ToolId>, parts: seq<Part>, i: nat, j: nat)
    requires i < j < |parts| && AllConverted(expose, NewState(prior), parts[..j])
    requires parts[i].ToolPart? && parts[j].ToolPart? && parts[i].ns == parts[j].ns && parts[i].result.callId == parts[j].result.callId
    requires ToolId(parts[i].ns, parts[i].result.callId) !in StateBefore(expose, prior, parts, i).results
    ensures
      var tool, s, t := ToolId(parts[i].ns, parts[i].result.callId), StateBefore(expose, prior, parts, i), StateBefore(expose, prior, parts, j);
      var first, second := parts[i].result, parts[j].result;
      var recorded := RecordedName(s.names, tool, first);
      && (IsConverted(t, parts[j]) <==>
            second.content == first.content && MessageIdOf(second) == MessageIdOf(first) && AgreesOnName(t.names, tool, recorded, second))
      && (tool in s.names || tool !in s.started ==> (AgreesOnName(t.names, tool, recorded, second) <==> second.name.None? || second.name == Some(recorded)))
      && After(expose, t, parts[j]) == t && PublishedOf(expose, t, parts[j]) == []
  {
    hide StateAfter, AllConverted, FitsResult, AfterResult, Remembers, HistoryCovers, MessageIdOf, RecordedName, AgreesOnName, NamesAreReal, ResultEvents;
    var ns, first, second := parts[i].ns, parts[i].result, parts[j].result;
    var s, t := StateBefore(expose, prior, parts, i), StateBefore(expose, prior, parts, j);
    ConvertedBefore(expose, NewState(prior), parts, i, j);
    NextPart(expose, NewState(prior), parts, i);
    RunRemembers(expose, prior, parts, i, i + 1);
    RunRemembers(expose, prior, parts, i + 1, j);
    TwoResults(s, t, ns, first, second);
  }

  lemma ResultsStay(before: State, after: State, tool: ToolId)
    requires Remembers(before, after) && tool in before.results
    ensures tool in after.results && after.results[tool] == before.results[tool]
    ensures tool in before.names ==> tool in after.names && after.names[tool] == before.names[tool]
  {
  }

  lemma ReplayChangesNothing(s: State, ns: Namespace, m: ToolMessage)
    requires ToolId(ns, m.callId) in s.results
    ensures AfterResult(s, ns, m) == s && ResultEvents(s, ns, m) == []
  {
  }

  /**
    For an earlier request's call that is known by no name the recorded name need not be that of the
    replay: after a result that names its tool, the same result without the name is refused.
   */
  lemma NamelessReplayIsRefused(expose: bool, callId: string, content: string)
    ensures
      var tool, named, nameless := ToolId([], callId), ToolMessage(callId, None, Some("search"), content), ToolMessage(callId, None, None, content);
      var s := NewState({tool});
      IsConverted(s, ToolPart([], named)) && !IsConverted(After(expose, s, ToolPart([], named)), ToolPart([], nameless))
  {
    var tool, named, nameless := ToolId([], callId), ToolMessage(callId, None, Some("search"), content), ToolMessage(callId, None, None, content);
    var s := NewState({tool});
    FirstResultIsRecorded(s, [], named);
    var after := AfterResult(s, [], named);
    assert after.names == map[];
    SecondResultIsReplay(after, [], nameless, named, "search");
  }

  // ---------------------------------------------------------------- chunks

  predicate OnlyTools(events: seq<Event>) {
    forall e :: e in events ==> e.kind.Tool?
  }

  lemma {:induction false} FragmentsAreTools(s: State, id: MessageId, fragments: seq<Fragment>)
    ensures OnlyTools(ServedAllEvents(s, id, fragments))
    decreases |fragments|
  {
    if fragments != [] && CallOf(s, id, fragments[0]).Some? {
      FragmentsAreTools(Served(s, id, fragments[0]), id, fragments[1..]);
      assert OnlyTools(ServedEvents(s, id, fragments[0]));
      hide ServedEvents, Served, CallOf;
    }
  }

  lemma LedSaysReasoning(expose: bool, s: State, id: MessageId, chunk: Chunk)
    ensures forall e :: e in LedEvents(expose, s, id, chunk) ==> e.kind.Reasoning?
    ensures Event(id.namespace, Reasoning(ReasoningContent, id)) in LedEvents(expose, s, id, chunk) <==> expose && chunk.reasoning != ""
  {
  }

  lemma DisplayedSaysContent(s: State, id: MessageId, chunk: Chunk)
    ensures
      var said, ns := DisplayedEvents(s, id, chunk), id.namespace;
      && (forall e :: e in said ==> e.kind.Text?)
      && (Event(ns, Text(TextContent, id)) in said <==> chunk.text != "")
      && (Event(ns, Text(TextAttachments, id)) in said <==> chunk.hasAttachments)
  {
  }

  /** A chunk says its text, attachments and exposed reasoning exactly when it has any. */
  lemma ChunkIsSaid(expose: bool, s: State, id: MessageId, chunk: Chunk)
    ensures
      var said, ns := SpokenEvents(expose, s, id, chunk), id.namespace;
      && (Event(ns, Text(TextContent, id)) in said <==> chunk.text != "")
      && (Event(ns, Text(TextAttachments, id)) in said <==> chunk.hasAttachments)
      && (Event(ns, Reasoning(ReasoningContent, id)) in said <==> expose && chunk.reasoning != "")
  {
    hide ServedAllEvents, ServedAll, Led, Displayed, LedEvents, DisplayedEvents;
    var led := Led(expose, s, id, chunk);
    LedSaysReasoning(expose, s, id, chunk);
    DisplayedSaysContent(led, id, chunk);
    FragmentsAreTools(Displayed(led, id, chunk), id, chunk.fragments);
  }

  /** With none of these and no fragment it says and changes nothing. */
  lemma HeartbeatIsSilent(expose: bool, s: State, id: MessageId, chunk: Chunk)
    requires chunk.text == "" && !chunk.hasAttachments && !(expose && chunk.reasoning != "") && chunk.fragments == []
    ensures SpokenEvents(expose, s, id, chunk) == [] && Spoken(expose, s, id, chunk) == s
    ensures !chunk.isLast ==> AfterChunk(expose, s, id, chunk) == s
  {
  }

  /** Fragments that fit are complete: an index, and both ID and name or neither. */
  lemma {:induction false} FittingFragmentsAreComplete(
    slots: map<Slot, ToolId>, names: map<ToolId, string>, ended: set<ToolId>, prior: set<ToolId>, id: MessageId, fragments: seq<Fragment>, i: nat)
    requires FragmentsFit(slots, names, ended, prior, id, fragments) && i < |fragments|
    ensures
      var f := fragments[i];
      && f.index.Some?
      && ((f.id.None? && f.name.None?) || (f.id.Some? && f.id.value != "" && f.name.Some? && f.name.value != ""))
    decreases |fragments|
  {
    if i > 0 {
      FittingFragmentsAreComplete(SlotsAfter(slots, ended, id, fragments[0]), NamesAfter(names, id, fragments[0]), ended, prior, id, fragments[1..], i - 1);
    }
  }
}

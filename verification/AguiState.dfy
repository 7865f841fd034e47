/**
  What the adapter remembers while it converts a run, as a value: what each part does to it, which
  parts are refused, and which events other than ENDs are published.
 */
module AguiState {
  import opened Outcomes
  import opened AguiEvents

  /** A tool fragment's place: the message it came with and its index. */
  datatype Slot = Slot(message: MessageId, index: int)

  datatype ActiveTool = ActiveTool(name: string, slot: Slot, arguments: string)

  /** A streamed tool fragment; a start carries both an ID and a name, a continuation neither. */
  datatype Fragment = Fragment(index: Option<int>, id: Option<string>, name: Option<string>, args: string)

  datatype Chunk = Chunk(
    id: string, text: string, hasAttachments: bool, reasoning: string, fragments: seq<Fragment>, isLast: bool)

  /** A tool result; `content` stands for everything two results must agree on. */
  datatype ToolMessage = ToolMessage(callId: string, messageId: Option<string>, name: Option<string>, content: string)

  datatype Fingerprint = Fingerprint(messageId: MessageId, name: string, content: string)

  /** What the adapter converts; only some parts touch the lifecycles. */
  datatype Part =
    | ModelMessage(ns: Namespace, chunk: Chunk)
    | ToolPart(ns: Namespace, result: ToolMessage)
    | RootValues
    | TaskStart(learned: map<ToolId, string>)
    | Elsewhere

  datatype State = State(
    messages: map<Namespace, MessageId>,
    /** An open reasoning stream is identified by its source message. */
    reasoning: set<MessageId>,
    tools: map<ToolId, ActiveTool>,
    slots: map<Slot, ToolId>,
    history: map<Slot, ToolId>,
    names: map<ToolId, string>,
    prior: set<ToolId>,
    started: set<ToolId>,
    ended: set<ToolId>,
    results: map<ToolId, Fingerprint>)

  /** The start of a run; an earlier request proposed and closed the `prior` calls. */
  function NewState(prior: set<ToolId>): State {
    State(map[], {}, map[], map[], map[], map[], prior, prior, prior, map[])
  }

  predicate OnePerNamespace(reasoning: set<MessageId>) {
    forall a, b :: a in reasoning && b in reasoning && a.namespace == b.namespace ==> a == b
  }

  function ReasoningView(reasoning: set<MessageId>): map<Namespace, OpenReasoning>
    requires OnePerNamespace(reasoning)
  {
    map id | id in reasoning :: id.namespace := OpenReasoning(id, true)
  }

  /** What a client that received every event knows. */
  function ViewOf(s: State): Client
    requires OnePerNamespace(s.reasoning)
  {
    Client(s.messages, ReasoningView(s.reasoning), s.tools.Keys, s.ended, s.results.Keys)
  }

  // ---------------------------------------------------------------- validation of tool fragments

  predicate IsContinuation(f: Fragment) {
    f.id.None? && f.name.None?
  }

  predicate IsStart(f: Fragment) {
    f.id.Some? && f.id.value != "" && f.name.Some? && f.name.value != ""
  }

  /** A start may not reuse an ended call of this run, move a call to another slot, or rename it. */
  ghost predicate FragmentFits(
    slots: map<Slot, ToolId>, names: map<ToolId, string>, barred: set<ToolId>, message: MessageId, f: Fragment)
  {
    && f.index.Some?
    && var slot := Slot(message, f.index.value);
    if IsContinuation(f) then slot in slots
    else
      && IsStart(f)
      && var tool := ToolId(message.namespace, f.id.value);
      && tool !in barred
      && (forall s :: s in slots && slots[s] == tool ==> s == slot)
      && (slot in slots ==> slots[slot] == tool)
      && (tool in names ==> names[tool] == f.name.value)
  }

  function SlotsAfter(slots: map<Slot, ToolId>, ended: set<ToolId>, message: MessageId, f: Fragment): map<Slot, ToolId> {
    if f.index.None? || !IsStart(f) || ToolId(message.namespace, f.id.value) in ended then slots
    else slots[Slot(message, f.index.value) := ToolId(message.namespace, f.id.value)]
  }

  function NamesAfter(names: map<ToolId, string>, message: MessageId, f: Fragment): map<ToolId, string> {
    if !IsStart(f) then names else names[ToolId(message.namespace, f.id.value) := f.name.value]
  }

  /** All fragments of a chunk fit, each after the ones before it. */
  ghost predicate FragmentsFit(
    slots: map<Slot, ToolId>, names: map<ToolId, string>, ended: set<ToolId>, prior: set<ToolId>,
    message: MessageId, fragments: seq<Fragment>)
    decreases |fragments|
  {
    fragments == [] ||
    (&& FragmentFits(slots, names, ended - prior, message, fragments[0])
     && FragmentsFit(SlotsAfter(slots, ended, message, fragments[0]), NamesAfter(names, message, fragments[0]),
                     ended, prior, message, fragments[1..]))
  }

  /** The fragment continues a call in one of these slots. */
  predicate Continues(slots: set<Slot>, message: MessageId, f: Fragment) {
    IsContinuation(f) && f.index.Some? && Slot(message, f.index.value) in slots
  }

  predicate ContinuesAny(slots: set<Slot>, message: MessageId, fragments: seq<Fragment>) {
    exists i :: 0 <= i < |fragments| && Continues(slots, message, fragments[i])
  }

  /** The slots whose calls have ended. */
  function StaleSlots(s: State): set<Slot> {
    s.history.Keys - s.slots.Keys
  }

  // ---------------------------------------------------------------- closing

  function Outside(reasoning: set<MessageId>, ns: Namespace): set<MessageId> {
    set id | id in reasoning && id.namespace != ns
  }

  function WithoutTools(s: State, ids: set<ToolId>): State {
    s.(tools := s.tools - ids,
       slots := map slot | slot in s.slots && s.slots[slot] !in ids :: s.slots[slot],
       ended := s.ended + s.tools.Keys * ids)
  }

  function ToolsIn(s: State, ns: Namespace): set<ToolId> {
    set id | id in s.tools && id.namespace == ns
  }

  /** Everything open in the namespace is closed. */
  function Vacated(s: State, ns: Namespace): State {
    WithoutTools(s, ToolsIn(s, ns)).(messages := s.messages - {ns}, reasoning := Outside(s.reasoning, ns))
  }

  function AllClosed(s: State): State {
    WithoutTools(s, s.tools.Keys).(messages := map[], reasoning := {})
  }

  // ---------------------------------------------------------------- reasoning and text

  function AfterReasoning(s: State, id: MessageId): State {
    s.(messages := s.messages - {id.namespace},
       reasoning := if id in s.reasoning then s.reasoning else Outside(s.reasoning, id.namespace) + {id})
  }

  function ReasoningEvents(s: State, id: MessageId): seq<Event> {
    (if id in s.reasoning then []
     else [Event(id.namespace, Reasoning(ReasoningStart, id)), Event(id.namespace, Reasoning(ReasoningMessageStart, id))])
    + [Event(id.namespace, Reasoning(ReasoningContent, id))]
  }

  predicate IsOpen(messages: map<Namespace, MessageId>, id: MessageId) {
    id.namespace in messages && messages[id.namespace] == id
  }

  function OpeningEvents(messages: map<Namespace, MessageId>, id: MessageId): seq<Event> {
    if IsOpen(messages, id) then [] else [Event(id.namespace, Text(TextStart, id))]
  }

  function AfterContent(s: State, id: MessageId): State {
    s.(messages := s.messages[id.namespace := id], reasoning := Outside(s.reasoning, id.namespace))
  }

  function ContentEvents(s: State, id: MessageId, step: TextStep): seq<Event> {
    OpeningEvents(s.messages, id) + [Event(id.namespace, Text(step, id))]
  }

  predicate ShowsReasoning(expose: bool, chunk: Chunk) {
    expose && chunk.reasoning != ""
  }

  /** Reasoning first; then another message's text ends. */
  function Led(expose: bool, s: State, id: MessageId, chunk: Chunk): State {
    if ShowsReasoning(expose, chunk) then AfterReasoning(s, id)
    else if IsOpen(s.messages, id) then s
    else s.(messages := s.messages - {id.namespace})
  }

  function LedEvents(expose: bool, s: State, id: MessageId, chunk: Chunk): seq<Event> {
    if ShowsReasoning(expose, chunk) then ReasoningEvents(s, id) else []
  }

  predicate HasContent(chunk: Chunk) {
    chunk.text != "" || chunk.hasAttachments
  }

  /** Text, then attachments; reasoning ends before either and before any tool fragment. */
  function Displayed(s: State, id: MessageId, chunk: Chunk): State {
    if HasContent(chunk) then AfterContent(s, id)
    else if chunk.fragments != [] then s.(reasoning := Outside(s.reasoning, id.namespace))
    else s
  }

  function DisplayedEvents(s: State, id: MessageId, chunk: Chunk): seq<Event> {
    (if HasContent(chunk) then OpeningEvents(s.messages, id) else [])
    + (if chunk.text != "" then [Event(id.namespace, Text(TextContent, id))] else [])
    + (if chunk.hasAttachments then [Event(id.namespace, Text(TextAttachments, id))] else [])
  }

  // ---------------------------------------------------------------- tool fragments

  predicate IsNewCall(s: State, tool: ToolId) {
    tool !in s.tools && tool !in s.ended
  }

  function WithCall(s: State, tool: ToolId, name: string, slot: Slot): State {
    s.(tools := s.tools[tool := ActiveTool(name, slot, "")], names := s.names[tool := name],
       slots := s.slots[slot := tool], history := s.history[slot := tool], started := s.started + {tool})
  }

  function WithArguments(s: State, tool: ToolId, args: string): State {
    if tool !in s.tools || args == "" then s
    else s.(tools := s.tools[tool := s.tools[tool].(arguments := s.tools[tool].arguments + args)])
  }

  function ServedCall(s: State, tool: ToolId, name: string, slot: Slot, args: string): State {
    WithArguments(if IsNewCall(s, tool) then WithCall(s, tool, name, slot) else s, tool, args)
  }

  function CallEvents(s: State, tool: ToolId, args: string): seq<Event> {
    (if IsNewCall(s, tool) then [Event(tool.namespace, Tool(ToolStart, tool))] else [])
    + (if tool !in s.ended && args != "" then [Event(tool.namespace, Tool(ToolArgs, tool))] else [])
  }

  /** The call a fragment belongs to, if it can be served. */
  function CallOf(s: State, message: MessageId, f: Fragment): Option<ToolId> {
    if f.index.None? then None
    else if !IsContinuation(f) then (if IsStart(f) then Some(ToolId(message.namespace, f.id.value)) else None)
    else if Slot(message, f.index.value) in s.slots then Some(s.slots[Slot(message, f.index.value)])
    else None
  }

  function NameIn(f: Fragment): string {
    if f.name.Some? then f.name.value else ""
  }

  function Served(s: State, message: MessageId, f: Fragment): State {
    match CallOf(s, message, f)
    case None => s
    case Some(tool) => ServedCall(s, tool, NameIn(f), Slot(message, f.index.value), f.args)
  }

  function ServedEvents(s: State, message: MessageId, f: Fragment): seq<Event> {
    match CallOf(s, message, f)
    case None => []
    case Some(tool) => CallEvents(s, tool, f.args)
  }

  /** The fragments of a chunk, up to the first that cannot be served. */
  function ServedAll(s: State, message: MessageId, fragments: seq<Fragment>): State
    decreases |fragments|
  {
    if fragments == [] || CallOf(s, message, fragments[0]).None? then s
    else ServedAll(Served(s, message, fragments[0]), message, fragments[1..])
  }

  function ServedAllEvents(s: State, message: MessageId, fragments: seq<Fragment>): seq<Event>
    decreases |fragments|
  {
    if fragments == [] || CallOf(s, message, fragments[0]).None? then []
    else ServedEvents(s, message, fragments[0]) + ServedAllEvents(Served(s, message, fragments[0]), message, fragments[1..])
  }

  // ---------------------------------------------------------------- parts

  /** Nothing in the chunk is published. */
  predicate IsEmptyChunk(expose: bool, chunk: Chunk) {
    !HasContent(chunk) && chunk.fragments == [] && !ShowsReasoning(expose, chunk)
  }

  /** One validated chunk, up to a fragment that continues an ended call. */
  function Spoken(expose: bool, s: State, id: MessageId, chunk: Chunk): State {
    if IsEmptyChunk(expose, chunk) then s
    else ServedAll(Displayed(Led(expose, s, id, chunk), id, chunk), id, chunk.fragments)
  }

  function SpokenEvents(expose: bool, s: State, id: MessageId, chunk: Chunk): seq<Event> {
    if IsEmptyChunk(expose, chunk) then []
    else
      var led := Led(expose, s, id, chunk);
      LedEvents(expose, s, id, chunk) + DisplayedEvents(led, id, chunk)
      + ServedAllEvents(Displayed(led, id, chunk), id, chunk.fragments)
  }

  /** The chunk passes validation but continues a call that has already ended. */
  predicate IsLate(s: State, id: MessageId, chunk: Chunk) {
    ContinuesAny(StaleSlots(s), id, chunk.fragments)
  }

  function AfterChunk(expose: bool, s: State, id: MessageId, chunk: Chunk): State {
    var spoken := Spoken(expose, s, id, chunk);
    if chunk.isLast && !IsLate(s, id, chunk) then Vacated(spoken, id.namespace) else spoken
  }

  /** The result names another tool than the call it belongs to. */
  predicate ContradictsName(names: map<ToolId, string>, ns: Namespace, m: ToolMessage) {
    var tool := ToolId(ns, m.callId);
    m.name.Some? && tool in names && names[tool] != m.name.value
  }

  /** What a replayed result must agree on. */
  function FingerprintOf(names: map<ToolId, string>, ns: Namespace, m: ToolMessage): Fingerprint {
    var raw := if m.messageId.Some? && m.messageId.value != "" then m.messageId.value else "tool-result:" + m.callId;
    var known := Lookup(names, ToolId(ns, m.callId), "");
    var name := if known != "" then known else if m.name.Some? && m.name.value != "" then m.name.value else "tool";
    Fingerprint(MessageId(ns, raw), name, m.content)
  }

  /** Neither a contradicting name nor a result that differs from the recorded one. */
  predicate FitsResult(s: State, ns: Namespace, m: ToolMessage) {
    var tool := ToolId(ns, m.callId);
    !ContradictsName(s.names, ns, m) && (tool in s.results ==> s.results[tool] == FingerprintOf(s.names, ns, m))
  }

  /** A call known only from its result starts and ends; one still running ends. */
  function Settled(s: State, tool: ToolId, name: string): State {
    if tool !in s.started
    then s.(names := s.names[tool := name], started := s.started + {tool}, ended := s.ended + {tool})
    else WithoutTools(s, {tool})
  }

  function AfterResult(s: State, ns: Namespace, m: ToolMessage): State {
    var tool, fingerprint := ToolId(ns, m.callId), FingerprintOf(s.names, ns, m);
    if !FitsResult(s, ns, m) || tool in s.results then s
    else
      var idle := s.(messages := s.messages - {ns}, reasoning := Outside(s.reasoning, ns));
      Settled(idle, tool, fingerprint.name).(results := s.results[tool := fingerprint], prior := s.prior - {tool})
  }

  function ResultEvents(s: State, ns: Namespace, m: ToolMessage): seq<Event> {
    var tool := ToolId(ns, m.callId);
    if !FitsResult(s, ns, m) || tool in s.results then []
    else (if tool !in s.started then [Event(ns, Tool(ToolStart, tool))] else []) + [Event(ns, Tool(ToolResult, tool))]
  }

  /** A task start names its calls, and no call by another name than it is known by. */
  predicate FitsNames(names: map<ToolId, string>, learned: map<ToolId, string>) {
    forall tool :: tool in learned ==> learned[tool] != "" && (tool in names ==> names[tool] == learned[tool])
  }

  /** The part passes the checks that come before anything is changed. */
  ghost predicate IsWellFormed(s: State, part: Part) {
    match part
    case ModelMessage(ns, chunk) =>
      chunk.id != "" && FragmentsFit(s.history, s.names, s.ended, s.prior, MessageId(ns, chunk.id), chunk.fragments)
    case ToolPart(ns, m) => FitsResult(s, ns, m)
    case TaskStart(learned) => FitsNames(s.names, learned)
    case _ => true
  }

  /** Validation admits the part, but it continues a call that has already ended. */
  predicate IsLatePart(s: State, part: Part) {
    part.ModelMessage? && IsLate(s, MessageId(part.ns, part.chunk.id), part.chunk)
  }

  ghost predicate IsConverted(s: State, part: Part) {
    IsWellFormed(s, part) && !IsLatePart(s, part)
  }

  ghost function After(expose: bool, s: State, part: Part): State {
    if !IsWellFormed(s, part) then s
    else
      match part
      case ModelMessage(ns, chunk) => AfterChunk(expose, s, MessageId(ns, chunk.id), chunk)
      case ToolPart(ns, m) => AfterResult(s, ns, m)
      case RootValues => AllClosed(s)
      case TaskStart(learned) => s.(names := s.names + learned)
      case Elsewhere => s
  }

  /** What is published of one part, apart from ENDs. */
  ghost function PublishedOf(expose: bool, s: State, part: Part): seq<Event> {
    if !IsConverted(s, part) then []
    else
      match part
      case ModelMessage(ns, chunk) => SpokenEvents(expose, s, MessageId(ns, chunk.id), chunk)
      case ToolPart(ns, m) => ResultEvents(s, ns, m)
      case _ => []
  }

  // ---------------------------------------------------------------- runs of parts

  ghost function StateAfter(expose: bool, s: State, parts: seq<Part>): State
    decreases |parts|
  {
    if parts == [] then s
    else After(expose, StateAfter(expose, s, parts[..|parts| - 1]), parts[|parts| - 1])
  }

  ghost predicate AllConverted(expose: bool, s: State, parts: seq<Part>)
    decreases |parts|
  {
    parts == [] ||
    (&& AllConverted(expose, s, parts[..|parts| - 1])
     && IsConverted(StateAfter(expose, s, parts[..|parts| - 1]), parts[|parts| - 1]))
  }

  ghost function PublishedOfAll(expose: bool, s: State, parts: seq<Part>): seq<Event>
    decreases |parts|
  {
    if parts == [] then []
    else
      PublishedOfAll(expose, s, parts[..|parts| - 1])
      + PublishedOf(expose, StateAfter(expose, s, parts[..|parts| - 1]), parts[|parts| - 1])
  }

  /** One more part. */
  lemma NextPart(expose: bool, s: State, parts: seq<Part>, i: nat)
    requires i < |parts|
    ensures
      var before := StateAfter(expose, s, parts[..i]);
      && StateAfter(expose, s, parts[..i + 1]) == After(expose, before, parts[i])
      && (AllConverted(expose, s, parts[..i + 1]) <==> AllConverted(expose, s, parts[..i]) && IsConverted(before, parts[i]))
      && PublishedOfAll(expose, s, parts[..i + 1]) == PublishedOfAll(expose, s, parts[..i]) + PublishedOf(expose, before, parts[i])
  {
    hide After, IsConverted, PublishedOf;
    assert parts[..i + 1][..i] == parts[..i];
  }

  // ---------------------------------------------------------------- what a late part changes

  /** The chunk starts a call before its first continuation of an ended one. */
  predicate StartsCall(s: State, id: MessageId, fragments: seq<Fragment>) {
    exists i :: 0 <= i < |fragments| && StartsNewCall(s, id, fragments[i]) && !ContinuesAny(StaleSlots(s), id, fragments[..i])
  }

  predicate StartsNewCall(s: State, id: MessageId, f: Fragment) {
    IsStart(f) && IsNewCall(s, ToolId(id.namespace, f.id.value))
  }

  /** The chunk leaves another message open in its namespace, or none in place of one. */
  predicate MovesMessage(expose: bool, s: State, id: MessageId, chunk: Chunk) {
    if HasContent(chunk) then !IsOpen(s.messages, id)
    else id.namespace in s.messages && (s.messages[id.namespace] != id || ShowsReasoning(expose, chunk))
  }

  predicate IsReasoningIn(reasoning: set<MessageId>, ns: Namespace) {
    exists id :: id in reasoning && id.namespace == ns
  }

  /**
    The part is refused too late, and before that it has ended open reasoning, moved the open message
    or started a call: the events that said so are lost.
   */
  ghost predicate LosesLifecycle(expose: bool, s: State, part: Part) {
    && IsWellFormed(s, part) && IsLatePart(s, part)
    && var id := MessageId(part.ns, part.chunk.id);
    IsReasoningIn(s.reasoning, part.ns) || MovesMessage(expose, s, id, part.chunk) || StartsCall(s, id, part.chunk.fragments)
  }

  /** Running calls are found in the history of slots, which holds only started calls; live slots belong to running ones. */
  predicate HistoryCovers(s: State) {
    && (forall tool :: tool in s.tools ==> s.tools[tool].slot in s.history && s.history[s.tools[tool].slot] == tool)
    && (forall slot :: slot in s.history ==> s.history[slot] in s.tools || s.history[slot] in s.ended)
    && (forall slot :: slot in s.slots ==> s.slots[slot] in s.tools)
  }

  lemma ArgumentsKeepHistory(s: State, tool: ToolId, args: string)
    requires HistoryCovers(s)
    ensures
      var after := WithArguments(s, tool, args);
      HistoryCovers(after) && after == s.(tools := after.tools) && after.tools.Keys == s.tools.Keys
  {
    if tool in s.tools && args != "" {
      var after := WithArguments(s, tool, args);
      assert after.tools.Keys == s.tools.Keys;
    }
  }

  lemma CallExtendsHistory(s: State, tool: ToolId, name: string, slot: Slot)
    requires HistoryCovers(s) && IsNewCall(s, tool) && slot !in s.history
    ensures
      var after := WithCall(s, tool, name, slot);
      HistoryCovers(after) && StaleSlots(after) == StaleSlots(s) && after.tools.Keys == s.tools.Keys + {tool}
  {
  }

  /** A fragment that fits cannot be served exactly when it continues an ended call. */
  lemma StaleIsUnserved(s: State, id: MessageId, f: Fragment, names: map<ToolId, string>)
    requires FragmentFits(s.history, names, s.ended - s.prior, id, f)
    ensures CallOf(s, id, f).None? <==> Continues(StaleSlots(s), id, f)
  {
  }

  /** The call of a served fragment is new and takes a new slot, or the history already says where it is. */
  lemma ServedCallFits(s: State, id: MessageId, f: Fragment, names: map<ToolId, string>)
    requires HistoryCovers(s) && FragmentFits(s.history, names, s.ended - s.prior, id, f) && CallOf(s, id, f).Some?
    ensures
      var tool, slot := CallOf(s, id, f).value, Slot(id, f.index.value);
      && (IsNewCall(s, tool) <==> StartsNewCall(s, id, f))
      && (IsNewCall(s, tool) ==> tool == ToolId(id.namespace, f.id.value) && slot !in s.history)
      && SlotsAfter(s.history, s.ended, id, f) == if IsNewCall(s, tool) then s.history[slot := tool] else s.history
  {
  }

  lemma ServedStep(s: State, id: MessageId, f: Fragment, names: map<ToolId, string>)
    requires HistoryCovers(s) && FragmentFits(s.history, names, s.ended - s.prior, id, f) && CallOf(s, id, f).Some?
    ensures
      var after := Served(s, id, f);
      && HistoryCovers(after) && StaleSlots(after) == StaleSlots(s)
      && after.ended == s.ended && after.prior == s.prior
      && after.history == SlotsAfter(s.history, s.ended, id, f)
      && after.tools.Keys == if StartsNewCall(s, id, f) then s.tools.Keys + {ToolId(id.namespace, f.id.value)} else s.tools.Keys
  {
    ServedCallFits(s, id, f, names);
    var tool, slot := CallOf(s, id, f).value, Slot(id, f.index.value);
    hide HistoryCovers, FragmentFits, SlotsAfter, StartsNewCall, WithArguments, CallOf;
    if IsNewCall(s, tool) {
      CallExtendsHistory(s, tool, NameIn(f), slot);
      ArgumentsKeepHistory(WithCall(s, tool, NameIn(f), slot), tool, f.args);
    } else {
      ArgumentsKeepHistory(s, tool, f.args);
    }
  }

  lemma {:induction false} ServedAllStartsCalls(s: State, id: MessageId, fragments: seq<Fragment>, names: map<ToolId, string>)
    requires HistoryCovers(s) && FragmentsFit(s.history, names, s.ended, s.prior, id, fragments)
    ensures
      var after := ServedAll(s, id, fragments);
      && s.tools.Keys <= after.tools.Keys
      && (forall tool :: tool in after.tools && tool.namespace != id.namespace ==> tool in s.tools)
      && (after.tools.Keys == s.tools.Keys <==> !StartsCall(s, id, fragments))
    decreases |fragments|
  {
    if fragments != [] {
      var f := fragments[0];
      StaleIsUnserved(s, id, f, names);
      if CallOf(s, id, f).Some? {
        ServedStep(s, id, f, names);
        var next := Served(s, id, f);
        ServedAllStartsCalls(next, id, fragments[1..], NamesAfter(names, id, f));
        if StartsNewCall(s, id, f) {
          assert StartsNewCall(s, id, fragments[0]) && !ContinuesAny(StaleSlots(s), id, fragments[..0]);
        } else {
          StartsCallLater(s, next, id, fragments);
        }
      } else {
        StaleFirstStartsNothing(s, id, fragments);
      }
    }
  }

  lemma StaleFirstStartsNothing(s: State, id: MessageId, fragments: seq<Fragment>)
    requires fragments != [] && Continues(StaleSlots(s), id, fragments[0])
    ensures !StartsCall(s, id, fragments)
  {
    forall i | 0 <= i < |fragments| && StartsNewCall(s, id, fragments[i]) ensures ContinuesAny(StaleSlots(s), id, fragments[..i]) {
      assert Continues(StaleSlots(s), id, fragments[..i][0]);
    }
  }

  lemma StartsCallLater(s: State, next: State, id: MessageId, fragments: seq<Fragment>)
    requires fragments != [] && !StartsNewCall(s, id, fragments[0]) && !Continues(StaleSlots(s), id, fragments[0])
    requires StaleSlots(next) == StaleSlots(s) && next.ended == s.ended && next.tools.Keys == s.tools.Keys
    ensures StartsCall(s, id, fragments) <==> StartsCall(next, id, fragments[1..])
  {
    var stale, rest := StaleSlots(s), fragments[1..];
    hide StaleSlots;
    forall i | 0 <= i < |rest|
      ensures StartsNewCall(next, id, rest[i]) <==> StartsNewCall(s, id, fragments[i + 1])
      ensures ContinuesAny(stale, id, rest[..i]) <==> ContinuesAny(stale, id, fragments[..i + 1])
    {
      ContinuesLater(stale, id, fragments, i);
    }
    hide ContinuesAny, StartsNewCall;
    if i :| 0 <= i < |fragments| && StartsNewCall(s, id, fragments[i]) && !ContinuesAny(stale, id, fragments[..i]) {
      assert StartsNewCall(next, id, rest[i - 1]) && !ContinuesAny(stale, id, rest[..i - 1]);
    }
    if i :| 0 <= i < |rest| && StartsNewCall(next, id, rest[i]) && !ContinuesAny(stale, id, rest[..i]) {
      assert StartsNewCall(s, id, fragments[i + 1]) && !ContinuesAny(stale, id, fragments[..i + 1]);
    }
  }

  lemma ContinuesLater(slots: set<Slot>, id: MessageId, fragments: seq<Fragment>, i: nat)
    requires i < |fragments| && !Continues(slots, id, fragments[0])
    ensures ContinuesAny(slots, id, fragments[1..][..i]) <==> ContinuesAny(slots, id, fragments[..i + 1])
  {
    hide Continues;
    var all, rest := fragments[..i + 1], fragments[1..][..i];
    assert all == [fragments[0]] + rest;
    if j :| 0 <= j < |all| && Continues(slots, id, all[j]) {
      assert Continues(slots, id, rest[j - 1]);
    }
    if j :| 0 <= j < |rest| && Continues(slots, id, rest[j]) {
      assert Continues(slots, id, all[j + 1]);
    }
  }

  /** The open message once a chunk's reasoning, text and attachments are out. */
  function MessagesWith(expose: bool, messages: map<Namespace, MessageId>, id: MessageId, chunk: Chunk): map<Namespace, MessageId> {
    if HasContent(chunk) then messages[id.namespace := id]
    else if IsOpen(messages, id) && !ShowsReasoning(expose, chunk) then messages
    else messages - {id.namespace}
  }

  lemma MessageMoves(expose: bool, s: State, id: MessageId, chunk: Chunk)
    ensures
      var after := MessagesWith(expose, s.messages, id, chunk);
      && after - {id.namespace} == s.messages - {id.namespace}
      && (after == s.messages <==> !MovesMessage(expose, s, id, chunk))
  {
    var messages, ns := s.messages, id.namespace;
    if ns in messages {
      assert ns !in messages - {ns};
      assert messages[ns := messages[ns]] == messages;
    } else {
      assert messages - {ns} == messages;
      assert ns in messages[ns := id];
    }
  }

  lemma ClosingUndoesReasoning(s: State, id: MessageId)
    ensures Outside(AfterReasoning(s, id).reasoning, id.namespace) == Outside(s.reasoning, id.namespace)
  {
  }

  lemma DisplayedWith(expose: bool, s: State, id: MessageId, chunk: Chunk)
    requires chunk.fragments != []
    ensures Displayed(Led(expose, s, id, chunk), id, chunk)
         == s.(messages := MessagesWith(expose, s.messages, id, chunk), reasoning := Outside(s.reasoning, id.namespace))
  {
    hide Outside, HasContent, ShowsReasoning, IsOpen;
    var messages, ns := s.messages, id.namespace;
    assert (messages - {ns})[ns := id] == messages[ns := id];
    ClosingUndoesReasoning(s, id);
  }

  lemma SpokenLate(expose: bool, s: State, id: MessageId, chunk: Chunk)
    requires IsLate(s, id, chunk)
    ensures AfterChunk(expose, s, id, chunk) == ServedAll(
              s.(messages := MessagesWith(expose, s.messages, id, chunk), reasoning := Outside(s.reasoning, id.namespace)), id, chunk.fragments)
  {
    assert chunk.fragments != [];
    DisplayedWith(expose, s, id, chunk);
    hide ServedAll, Led, Displayed, MessagesWith, Outside, HasContent, ShowsReasoning;
  }

  lemma {:induction false} ServedAllTouchesTools(s: State, id: MessageId, fragments: seq<Fragment>)
    ensures
      var after := ServedAll(s, id, fragments);
      after.messages == s.messages && after.reasoning == s.reasoning && after.ended == s.ended && after.results == s.results
    decreases |fragments|
  {
    if fragments != [] && CallOf(s, id, fragments[0]).Some? {
      ServedAllTouchesTools(Served(s, id, fragments[0]), id, fragments[1..]);
    }
  }

  /** What a part refused too late has done to the state. */
  lemma LateState(expose: bool, s: State, id: MessageId, chunk: Chunk)
    requires HistoryCovers(s) && FragmentsFit(s.history, s.names, s.ended, s.prior, id, chunk.fragments) && IsLate(s, id, chunk)
    ensures
      var after := AfterChunk(expose, s, id, chunk);
      && after.messages == MessagesWith(expose, s.messages, id, chunk)
      && after.reasoning == Outside(s.reasoning, id.namespace)
      && s.tools.Keys <= after.tools.Keys
      && (forall tool :: tool in after.tools && tool.namespace != id.namespace ==> tool in s.tools)
      && (after.tools.Keys == s.tools.Keys <==> !StartsCall(s, id, chunk.fragments))
  {
    SpokenLate(expose, s, id, chunk);
    var shown := s.(messages := MessagesWith(expose, s.messages, id, chunk), reasoning := Outside(s.reasoning, id.namespace));
    hide MessagesWith, AfterChunk, IsLate, Outside;
    ServedAllTouchesTools(shown, id, chunk.fragments);
    ServedAllStartsCalls(shown, id, chunk.fragments, s.names);
    assert StartsCall(shown, id, chunk.fragments) <==> StartsCall(s, id, chunk.fragments);
    hide FragmentsFit, ServedAll, HistoryCovers, StartsCall;
  }

  /** A part refused too late leaves the same things open exactly when it loses no lifecycle event. */
  lemma LateLossIsExact(expose: bool, s: State, part: Part)
    requires OnePerNamespace(s.reasoning) && HistoryCovers(s) && IsWellFormed(s, part) && IsLatePart(s, part)
    ensures
      var after := After(expose, s, part);
      && OnePerNamespace(after.reasoning)
      && AgreeOutside(ViewOf(s), ViewOf(after), part.ns)
      && (SameOpen(ViewOf(s), ViewOf(after)) <==> !LosesLifecycle(expose, s, part))
  {
    var id := MessageId(part.ns, part.chunk.id);
    LateState(expose, s, id, part.chunk);
    MessageMoves(expose, s, id, part.chunk);
    OutsideView(s.reasoning, part.ns);
    assert After(expose, s, part) == AfterChunk(expose, s, id, part.chunk);
    hide MessagesWith, MovesMessage, AfterChunk, After, ReasoningView, IsLate, IsLatePart, OnePerNamespace, Outside, HistoryCovers, StartsCall;
    hide FragmentsFit, IsReasoningIn;
    var after := After(expose, s, part);
    assert AgreeOutside(ViewOf(s), ViewOf(after), part.ns);
  }

  /** Closing the reasoning of a namespace changes the view there, and only if some was open. */
  lemma OutsideView(reasoning: set<MessageId>, ns: Namespace)
    requires OnePerNamespace(reasoning)
    ensures OnePerNamespace(Outside(reasoning, ns))
    ensures ReasoningView(Outside(reasoning, ns)) == ReasoningView(reasoning) - {ns}
    ensures ReasoningView(Outside(reasoning, ns)) - {ns} == ReasoningView(reasoning) - {ns}
    ensures ReasoningView(Outside(reasoning, ns)) == ReasoningView(reasoning) <==> !IsReasoningIn(reasoning, ns)
  {
  }

  // ---------------------------------------------------------------- what every part keeps

  /** Every known name says something. */
  predicate NamesAreReal(names: map<ToolId, string>) {
    forall tool :: tool in names ==> names[tool] != ""
  }

  predicate IsKept<K, V(==)>(before: map<K, V>, after: map<K, V>) {
    forall k :: k in before ==> k in after && after[k] == before[k]
  }

  /** Names and recorded results only grow. */
  predicate Remembers(before: State, after: State) {
    && IsKept(before.names, after.names) && NamesAreReal(after.names)
    && IsKept(before.results, after.results)
    && HistoryCovers(after)
  }

  lemma ServedNames(s: State, tool: ToolId, name: string, slot: Slot, args: string)
    ensures
      var after := ServedCall(s, tool, name, slot, args);
      && after.names == (if IsNewCall(s, tool) then s.names[tool := name] else s.names)
      && after.results == s.results
  {
  }

  lemma ServedRemembers(s: State, id: MessageId, f: Fragment, staged: map<ToolId, string>)
    requires HistoryCovers(s) && NamesAreReal(s.names) && IsKept(s.names, staged)
    requires FragmentFits(s.history, staged, s.ended - s.prior, id, f) && CallOf(s, id, f).Some?
    ensures Remembers(s, Served(s, id, f)) && IsKept(Served(s, id, f).names, NamesAfter(staged, id, f))
  {
    hide HistoryCovers, SlotsAfter, IsNewCall, ServedCall, StaleSlots;
    ServedStep(s, id, f, staged);
    ServedCallFits(s, id, f, staged);
    ServedNames(s, CallOf(s, id, f).value, NameIn(f), Slot(id, f.index.value), f.args);
  }

  lemma {:induction false} ServedAllRemembers(s: State, id: MessageId, fragments: seq<Fragment>, staged: map<ToolId, string>)
    requires HistoryCovers(s) && NamesAreReal(s.names) && IsKept(s.names, staged)
    requires FragmentsFit(s.history, staged, s.ended, s.prior, id, fragments)
    ensures Remembers(s, ServedAll(s, id, fragments))
    decreases |fragments|
  {
    if fragments != [] && CallOf(s, id, fragments[0]).Some? {
      ServedRemembers(s, id, fragments[0], staged);
      ServedStep(s, id, fragments[0], staged);
      ServedAllRemembers(Served(s, id, fragments[0]), id, fragments[1..], NamesAfter(staged, id, fragments[0]));
    }
  }

  lemma WithoutToolsRemembers(s: State, ids: set<ToolId>)
    requires HistoryCovers(s)
    ensures HistoryCovers(WithoutTools(s, ids))
  {
  }

  lemma SettledRemembers(s: State, tool: ToolId, name: string)
    requires HistoryCovers(s) && NamesAreReal(s.names) && name != "" && (tool in s.names ==> s.names[tool] == name)
    ensures Remembers(s, Settled(s, tool, name))
  {
    WithoutToolsRemembers(s, {tool});
  }

  lemma NameIsKnownName(names: map<ToolId, string>, ns: Namespace, m: ToolMessage)
    requires NamesAreReal(names)
    ensures
      var name, tool := FingerprintOf(names, ns, m).name, ToolId(ns, m.callId);
      name != "" && (tool in names ==> names[tool] == name)
  {
  }

  /** Messages, reasoning, results and open proposals play no part in the history. */
  lemma TalkIsForgotten(s: State, messages: map<Namespace, MessageId>, reasoning: set<MessageId>)
    requires HistoryCovers(s)
    ensures HistoryCovers(s.(messages := messages, reasoning := reasoning))
  {
  }

  lemma ResultIsForgotten(s: State, results: map<ToolId, Fingerprint>, prior: set<ToolId>)
    requires HistoryCovers(s)
    ensures HistoryCovers(s.(results := results, prior := prior))
  {
  }

  lemma ResultRemembers(s: State, ns: Namespace, m: ToolMessage)
    requires HistoryCovers(s) && NamesAreReal(s.names)
    ensures Remembers(s, AfterResult(s, ns, m))
  {
    hide FingerprintOf, FitsResult, Outside, Settled, HistoryCovers, NamesAreReal;
    NameIsKnownName(s.names, ns, m);
    var idle := s.(messages := s.messages - {ns}, reasoning := Outside(s.reasoning, ns));
    TalkIsForgotten(s, idle.messages, idle.reasoning);
    var tool, fingerprint := ToolId(ns, m.callId), FingerprintOf(s.names, ns, m);
    SettledRemembers(idle, tool, fingerprint.name);
    var settled := Settled(idle, tool, fingerprint.name);
    if FitsResult(s, ns, m) && tool !in s.results {
      ResultIsForgotten(settled, s.results[tool := fingerprint], s.prior - {tool});
    }
  }

  lemma ChunkRemembers(expose: bool, s: State, id: MessageId, chunk: Chunk)
    requires HistoryCovers(s) && NamesAreReal(s.names)
    requires FragmentsFit(s.history, s.names, s.ended, s.prior, id, chunk.fragments)
    ensures Remembers(s, AfterChunk(expose, s, id, chunk))
  {
    hide FragmentsFit, IsLate, ServedAll, WithoutTools, Displayed, Led, IsEmptyChunk;
    var shown := Displayed(Led(expose, s, id, chunk), id, chunk);
    OnlyTalks(expose, s, id, chunk);
    ServedAllRemembers(shown, id, chunk.fragments, s.names);
    var spoken := Spoken(expose, s, id, chunk);
    assert Remembers(s, spoken);
    WithoutToolsRemembers(spoken, ToolsIn(spoken, id.namespace));
    var ids := ToolsIn(spoken, id.namespace);
    WithoutToolsKeeps(spoken, ids);
  }

  lemma LeadingOnlyTalks(expose: bool, s: State, id: MessageId, chunk: Chunk)
    ensures var led := Led(expose, s, id, chunk); led == s.(messages := led.messages, reasoning := led.reasoning)
  {
    hide Outside, IsOpen, ShowsReasoning;
  }

  lemma DisplayOnlyTalks(s: State, id: MessageId, chunk: Chunk)
    ensures var shown := Displayed(s, id, chunk); shown == s.(messages := shown.messages, reasoning := shown.reasoning)
  {
    hide Outside, HasContent;
  }

  lemma OnlyTalks(expose: bool, s: State, id: MessageId, chunk: Chunk)
    ensures
      var shown := Displayed(Led(expose, s, id, chunk), id, chunk);
      shown == s.(messages := shown.messages, reasoning := shown.reasoning) && (HistoryCovers(s) ==> HistoryCovers(shown))
  {
    hide Outside, HistoryCovers, Led, Displayed;
    LeadingOnlyTalks(expose, s, id, chunk);
    DisplayOnlyTalks(Led(expose, s, id, chunk), id, chunk);
    var shown := Displayed(Led(expose, s, id, chunk), id, chunk);
    if HistoryCovers(s) {
      TalkIsForgotten(s, shown.messages, shown.reasoning);
    }
  }

  lemma WithoutToolsKeeps(s: State, ids: set<ToolId>)
    ensures WithoutTools(s, ids).names == s.names && WithoutTools(s, ids).results == s.results
  {
  }

  /** Whatever the part, names and results are kept. */
  lemma AfterRemembers(expose: bool, s: State, part: Part)
    requires HistoryCovers(s) && NamesAreReal(s.names)
    ensures Remembers(s, After(expose, s, part))
  {
    hide HistoryCovers, AfterChunk, AfterResult, FragmentsFit, FitsResult, WithoutTools;
    if IsWellFormed(s, part) {
      match part
      case ModelMessage(ns, chunk) => ChunkRemembers(expose, s, MessageId(ns, chunk.id), chunk);
      case ToolPart(ns, m) => ResultRemembers(s, ns, m);
      case RootValues => AllClosedRemembers(s);
      case TaskStart(learned) => LearningRemembers(s, learned);
      case Elsewhere =>
    }
  }

  lemma AllClosedRemembers(s: State)
    requires HistoryCovers(s) && NamesAreReal(s.names)
    ensures Remembers(s, AllClosed(s))
  {
    WithoutToolsRemembers(s, s.tools.Keys);
  }

  lemma LearningRemembers(s: State, learned: map<ToolId, string>)
    requires HistoryCovers(s) && NamesAreReal(s.names) && FitsNames(s.names, learned)
    ensures Remembers(s, s.(names := s.names + learned))
  {
  }

  /** From any part of a run to a later one. */
  lemma {:induction false} RunRemembers(expose: bool, prior: set<ToolId>, parts: seq<Part>, i: nat, j: nat)
    requires i <= j <= |parts|
    ensures
      var earlier, later := StateAfter(expose, NewState(prior), parts[..i]), StateAfter(expose, NewState(prior), parts[..j]);
      HistoryCovers(earlier) && NamesAreReal(earlier.names) && Remembers(earlier, later)
    decreases j
  {
    hide After, HistoryCovers, NamesAreReal, AllConverted, PublishedOfAll, StateAfter;
    if j == 0 {
      assert parts[..0] == [];
      NewRemembersItself(prior);
      NothingAfter(expose, NewState(prior));
    } else {
      NextPart(expose, NewState(prior), parts, j - 1);
      if i < j {
        RunRemembers(expose, prior, parts, i, j - 1);
        AfterRemembers(expose, StateAfter(expose, NewState(prior), parts[..j - 1]), parts[j - 1]);
      } else {
        RunRemembers(expose, prior, parts, i - 1, j - 1);
        AfterRemembers(expose, StateAfter(expose, NewState(prior), parts[..j - 1]), parts[j - 1]);
      }
    }
  }

  lemma NothingAfter(expose: bool, s: State)
    ensures StateAfter(expose, s, []) == s
  {
  }

  lemma NewRemembersItself(prior: set<ToolId>)
    ensures HistoryCovers(NewState(prior)) && Remembers(NewState(prior), NewState(prior))
  {
  }
}

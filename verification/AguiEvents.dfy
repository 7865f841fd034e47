/**
  The public event stream of a run as a client may rely on it: which event may follow which. A
  client that never has to reject an event saw balanced messages, reasoning and tool calls.
 */
module AguiEvents {
  import opened Outcomes

  /** A graph namespace; the root graph has the empty one. */
  type Namespace = seq<string>

  /** Public identifiers are injective encodings of a namespace and a native identifier. */
  datatype MessageId = MessageId(namespace: Namespace, raw: string)

  datatype ToolId = ToolId(namespace: Namespace, raw: string)

  datatype TextStep = TextStart | TextContent | TextAttachments | TextEnd

  datatype ReasoningStep = ReasoningStart | ReasoningMessageStart | ReasoningContent | ReasoningMessageEnd | ReasoningEnd

  datatype ToolStep = ToolStart | ToolArgs | ToolEnd | ToolResult

  datatype EventKind =
    | Text(text: TextStep, message: MessageId)
    | Reasoning(reasoning: ReasoningStep, message: MessageId)
    | Tool(tool: ToolStep, call: ToolId)
    | Other

  /** An event with the namespace of its serialized provenance. */
  datatype Event = Event(source: Namespace, kind: EventKind)

  /** The open reasoning of a namespace, and whether its inner message is open. */
  datatype OpenReasoning = OpenReasoning(message: MessageId, inner: bool)

  /** What the client has seen so far. */
  datatype Client = Client(
    text: map<Namespace, MessageId>,
    reasoning: map<Namespace, OpenReasoning>,
    running: set<ToolId>,
    ended: set<ToolId>,
    resulted: set<ToolId>)

  function AcceptText(client: Client, at: Namespace, step: TextStep, id: MessageId): Option<Client> {
    if step.TextStart? then
      if id.namespace == at && at !in client.text && at !in client.reasoning then Some(client.(text := client.text[at := id])) else None
    else if at !in client.text || client.text[at] != id then None
    else if step.TextEnd? then Some(client.(text := client.text - {at}))
    else Some(client)
  }

  function AcceptReasoning(client: Client, at: Namespace, step: ReasoningStep, id: MessageId): Option<Client> {
    if step.ReasoningStart? then
      if id.namespace == at && at !in client.text && at !in client.reasoning
      then Some(client.(reasoning := client.reasoning[at := OpenReasoning(id, false)])) else None
    else
      var inner := step.ReasoningContent? || step.ReasoningMessageEnd?;
      if at !in client.reasoning || client.reasoning[at] != OpenReasoning(id, inner) then None
      else
        match step
        case ReasoningMessageStart => Some(client.(reasoning := client.reasoning[at := OpenReasoning(id, true)]))
        case ReasoningMessageEnd => Some(client.(reasoning := client.reasoning[at := OpenReasoning(id, false)]))
        case ReasoningEnd => Some(client.(reasoning := client.reasoning - {at}))
        case _ => Some(client)
  }

  function AcceptTool(client: Client, at: Namespace, step: ToolStep, id: ToolId): Option<Client> {
    if id.namespace != at then None
    else
      match step
      case ToolStart =>
        if id !in client.running && id !in client.ended then Some(client.(running := client.running + {id})) else None
      case ToolArgs => if id in client.running then Some(client) else None
      case ToolEnd =>
        if id in client.running then Some(client.(running := client.running - {id}, ended := client.ended + {id})) else None
      case ToolResult =>
        if id in client.ended && id !in client.resulted then Some(client.(resulted := client.resulted + {id})) else None
  }

  /** The next event, or None when it breaks the protocol. */
  function Accept(client: Client, event: Event): Option<Client> {
    match event.kind
    case Text(step, id) => AcceptText(client, event.source, step, id)
    case Reasoning(step, id) => AcceptReasoning(client, event.source, step, id)
    case Tool(step, id) => AcceptTool(client, event.source, step, id)
    case Other => Some(client)
  }

  function AcceptAll(client: Client, events: seq<Event>): Option<Client>
    decreases |events|
  {
    if events == [] then Some(client)
    else
      match Accept(client, events[0])
      case None => None
      case Some(next) => AcceptAll(next, events[1..])
  }

  lemma {:induction false} AcceptConcatenated(client: Client, first: seq<Event>, second: seq<Event>)
    ensures AcceptAll(client, first + second) ==
            match AcceptAll(client, first)
            case None => None
            case Some(middle) => AcceptAll(middle, second)
    decreases |first|
  {
    if first == [] {
      assert first + second == second;
    } else {
      assert (first + second)[1..] == first[1..] + second;
      match Accept(client, first[0])
      case None =>
      case Some(next) => AcceptConcatenated(next, first[1..], second);
    }
  }

  lemma AcceptOne(client: Client, event: Event)
    ensures AcceptAll(client, [event]) == Accept(client, event)
  {
    assert [event][1..] == [];
  }

  // ---------------------------------------------------------------- what acceptance means

  /** Nothing is open. */
  predicate IsBalanced(client: Client) {
    client.text == map[] && client.reasoning == map[] && client.running == {}
  }

  /** A client at the start of a run; `prior` calls were already closed by an earlier request. */
  function NewClient(prior: set<ToolId>): Client {
    Client(map[], map[], {}, prior, {})
  }

  /** Text and reasoning are never open together, and tool phases exclude each other. */
  predicate IsSane(client: Client) {
    && client.text.Keys !! client.reasoning.Keys
    && client.running !! client.ended
    && client.resulted <= client.ended
  }

  lemma {:induction false} AcceptedKeepsSane(client: Client, events: seq<Event>)
    requires IsSane(client) && AcceptAll(client, events).Some?
    ensures IsSane(AcceptAll(client, events).value)
    decreases |events|
  {
    if events != [] {
      AcceptedStepKeepsSane(client, events[0]);
      AcceptedKeepsSane(Accept(client, events[0]).value, events[1..]);
    }
  }

  lemma AcceptedStepKeepsSane(client: Client, event: Event)
    requires IsSane(client) && Accept(client, event).Some?
    ensures IsSane(Accept(client, event).value)
  {
  }

  /** The client accepts every event and nothing is open at the end. */
  predicate IsBalancedStream(client: Client, events: seq<Event>) {
    AcceptAll(client, events).Some? && IsBalanced(AcceptAll(client, events).value)
  }

  // ---------------------------------------------------------------- closing events

  /** The events that only close what is open. */
  predicate IsEnd(event: Event) {
    match event.kind
    case Text(step, _) => step.TextEnd?
    case Reasoning(step, _) => step.ReasoningMessageEnd? || step.ReasoningEnd?
    case Tool(step, _) => step.ToolEnd?
    case Other => false
  }

  function WithoutEnds(events: seq<Event>): seq<Event> {
    if events == [] then []
    else (if IsEnd(events[0]) then [] else [events[0]]) + WithoutEnds(events[1..])
  }

  lemma {:induction false} WithoutEndsConcatenated(first: seq<Event>, second: seq<Event>)
    ensures WithoutEnds(first + second) == WithoutEnds(first) + WithoutEnds(second)
    decreases |first|
  {
    hide IsEnd;
    if first == [] {
      assert first + second == second;
    } else {
      assert (first + second)[1..] == first[1..] + second;
      WithoutEndsConcatenated(first[1..], second);
    }
  }

  /** The same text, reasoning and tool calls are open. */
  predicate SameOpen(a: Client, b: Client) {
    a.text == b.text && a.reasoning == b.reasoning && a.running == b.running
  }

  lemma TextEndFits(a: Client, b: Client, event: Event)
    requires event.kind.Text? && IsEnd(event) && Accept(b, event).Some?
    ensures SameOpen(a, b) ==> Accept(a, event).Some?
    ensures Accept(a, event).Some? ==> (SameOpen(a, b) <==> SameOpen(Accept(a, event).value, Accept(b, event).value))
  {
    var at := event.source;
    if Accept(a, event).Some? && a.text - {at} == b.text - {at} {
      assert a.text.Keys == (a.text - {at}).Keys + {at} && b.text.Keys == (b.text - {at}).Keys + {at};
      assert forall ns :: ns in a.text && ns != at ==> a.text[ns] == (a.text - {at})[ns];
      assert forall ns :: ns in b.text && ns != at ==> b.text[ns] == (b.text - {at})[ns];
      assert a.text == b.text;
    }
  }

  lemma ReasoningEndFits(a: Client, b: Client, event: Event)
    requires event.kind.Reasoning? && IsEnd(event) && Accept(b, event).Some?
    ensures SameOpen(a, b) ==> Accept(a, event).Some?
    ensures Accept(a, event).Some? ==> (SameOpen(a, b) <==> SameOpen(Accept(a, event).value, Accept(b, event).value))
  {
    var at := event.source;
    if Accept(a, event).Some? {
      var c, d := Accept(a, event).value.reasoning, Accept(b, event).value.reasoning;
      if c == d {
        assert a.reasoning.Keys == c.Keys + {at} && b.reasoning.Keys == d.Keys + {at};
        assert forall ns :: ns in a.reasoning && ns != at ==> a.reasoning[ns] == c[ns];
        assert forall ns :: ns in b.reasoning && ns != at ==> b.reasoning[ns] == d[ns];
        assert a.reasoning == b.reasoning;
      }
    }
  }

  lemma ToolEndFits(a: Client, b: Client, event: Event)
    requires event.kind.Tool? && IsEnd(event) && Accept(b, event).Some?
    ensures SameOpen(a, b) ==> Accept(a, event).Some?
    ensures Accept(a, event).Some? ==> (SameOpen(a, b) <==> SameOpen(Accept(a, event).value, Accept(b, event).value))
  {
    var id := event.kind.call;
    if Accept(a, event).Some? {
      assert a.running == a.running - {id} + {id} && b.running == b.running - {id} + {id};
    }
  }

  /** Closing events that leave nothing open for one client do so exactly for those with the same things open. */
  lemma {:induction false} ClosingsFit(a: Client, b: Client, events: seq<Event>)
    requires WithoutEnds(events) == [] && IsBalancedStream(b, events)
    ensures IsBalancedStream(a, events) <==> SameOpen(a, b)
    decreases |events|
  {
    if events != [] {
      var first := events[0];
      match first.kind {
        case Text(_, _) => TextEndFits(a, b, first);
        case Reasoning(_, _) => ReasoningEndFits(a, b, first);
        case Tool(_, _) => ToolEndFits(a, b, first);
        case Other =>
      }
      hide Accept, SameOpen, IsEnd;
      if Accept(a, first).Some? {
        ClosingsFit(Accept(a, first).value, Accept(b, first).value, events[1..]);
      }
    }
  }

  // ---------------------------------------------------------------- lifecycles

  /** The steps of one tool call, in order. */
  function ToolTrace(events: seq<Event>, id: ToolId): seq<ToolStep> {
    if events == [] then []
    else
      var kind := events[0].kind;
      (if kind.Tool? && kind.call == id then [kind.tool] else []) + ToolTrace(events[1..], id)
  }

  datatype ToolPhase = Unseen | Running | Ended | Resulted

  function PhaseOf(client: Client, id: ToolId): ToolPhase {
    if id in client.resulted then Resulted
    else if id in client.ended then Ended
    else if id in client.running then Running
    else Unseen
  }

  /** START, ARGS any number of times, END, RESULT, possibly cut short, entered at some phase. */
  predicate IsLifecycle(phase: ToolPhase, trace: seq<ToolStep>)
    decreases |trace|
  {
    trace == [] ||
    match phase
    case Unseen => trace[0].ToolStart? && IsLifecycle(Running, trace[1..])
    case Running =>
      (trace[0].ToolArgs? && IsLifecycle(Running, trace[1..])) || (trace[0].ToolEnd? && IsLifecycle(Ended, trace[1..]))
    case Ended => trace[0].ToolResult? && IsLifecycle(Resulted, trace[1..])
    case Resulted => false
  }

  /** Every tool call goes through its lifecycle at most once; a prior call can only get its result. */
  lemma {:induction false} ToolCallsRunOnce(client: Client, events: seq<Event>, id: ToolId)
    requires IsSane(client) && AcceptAll(client, events).Some?
    ensures IsLifecycle(PhaseOf(client, id), ToolTrace(events, id))
    decreases |events|
  {
    if events != [] {
      var kind, trace, rest := events[0].kind, ToolTrace(events, id), ToolTrace(events[1..], id);
      hide AcceptText, AcceptReasoning;
      AcceptedStepKeepsSane(client, events[0]);
      ToolCallsRunOnce(Accept(client, events[0]).value, events[1..], id);
      if kind.Tool? && kind.call == id {
        assert trace[1..] == rest;
      } else {
        PhaseUntouched(client, events[0], id);
        assert trace == rest;
      }
    }
  }

  lemma PhaseUntouched(client: Client, event: Event, id: ToolId)
    requires Accept(client, event).Some? && !(event.kind.Tool? && event.kind.call == id)
    ensures PhaseOf(Accept(client, event).value, id) == PhaseOf(client, id)
  {
  }

  /** Whether this is a start (true) or an end (false) of the message's text, or neither. */
  function TextEdge(kind: EventKind, id: MessageId): Option<bool> {
    if !kind.Text? || kind.message != id then None
    else if kind.text.TextStart? then Some(true)
    else if kind.text.TextEnd? then Some(false)
    else None
  }

  function ReasoningEdge(kind: EventKind, id: MessageId): Option<bool> {
    if !kind.Reasoning? || kind.message != id then None
    else if kind.reasoning.ReasoningStart? then Some(true)
    else if kind.reasoning.ReasoningEnd? then Some(false)
    else None
  }

  /** START and END alternate: each START while closed, each END while open. */
  predicate TextAlternates(open: bool, events: seq<Event>, id: MessageId, left: bool)
    decreases |events|
  {
    if events == [] then open == left
    else
      match TextEdge(events[0].kind, id)
      case None => TextAlternates(open, events[1..], id, left)
      case Some(start) => start != open && TextAlternates(start, events[1..], id, left)
  }

  predicate ReasoningAlternates(open: bool, events: seq<Event>, id: MessageId, left: bool)
    decreases |events|
  {
    if events == [] then open == left
    else
      match ReasoningEdge(events[0].kind, id)
      case None => ReasoningAlternates(open, events[1..], id, left)
      case Some(start) => start != open && ReasoningAlternates(start, events[1..], id, left)
  }

  predicate IsTextOpen(client: Client, id: MessageId) {
    id.namespace in client.text && client.text[id.namespace] == id
  }

  predicate IsReasoningOpen(client: Client, id: MessageId) {
    id.namespace in client.reasoning && client.reasoning[id.namespace].message == id
  }

  /** Open text and reasoning belong to their namespaces. */
  predicate IsScoped(client: Client) {
    && (forall ns :: ns in client.text ==> client.text[ns].namespace == ns)
    && (forall ns :: ns in client.reasoning ==> client.reasoning[ns].message.namespace == ns)
  }

  lemma EdgesOpenAndClose(client: Client, event: Event, id: MessageId)
    requires IsScoped(client) && Accept(client, event).Some?
    ensures
      var next := Accept(client, event).value;
      && IsScoped(next)
      && IsTextOpen(next, id) == (match TextEdge(event.kind, id) case None => IsTextOpen(client, id) case Some(start) => start)
      && IsReasoningOpen(next, id) == (match ReasoningEdge(event.kind, id) case None => IsReasoningOpen(client, id) case Some(start) => start)
      && (TextEdge(event.kind, id).Some? ==> TextEdge(event.kind, id).value != IsTextOpen(client, id))
      && (ReasoningEdge(event.kind, id).Some? ==> ReasoningEdge(event.kind, id).value != IsReasoningOpen(client, id))
  {
  }

  /** Per message, STARTs and ENDs of text alternate, and those of reasoning too. */
  lemma {:induction false} MessagesAlternate(client: Client, events: seq<Event>, id: MessageId)
    requires IsScoped(client) && AcceptAll(client, events).Some?
    ensures
      var after := AcceptAll(client, events).value;
      && TextAlternates(IsTextOpen(client, id), events, id, IsTextOpen(after, id))
      && ReasoningAlternates(IsReasoningOpen(client, id), events, id, IsReasoningOpen(after, id))
    decreases |events|
  {
    if events != [] {
      hide Accept;
      EdgesOpenAndClose(client, events[0], id);
      MessagesAlternate(Accept(client, events[0]).value, events[1..], id);
    }
  }

  // ---------------------------------------------------------------- hiding subgraph events

  /** The events whose provenance is the root graph. */
  function RootEvents(events: seq<Event>): seq<Event> {
    if events == [] then []
    else (if events[0].source == [] then [events[0]] else []) + RootEvents(events[1..])
  }

  function OfRoot(ids: set<ToolId>): set<ToolId> {
    set id | id in ids && id.namespace == []
  }

  function RootView(client: Client): Client {
    Client(map ns | ns in client.text && ns == [] :: client.text[ns],
           map ns | ns in client.reasoning && ns == [] :: client.reasoning[ns],
           OfRoot(client.running), OfRoot(client.ended), OfRoot(client.resulted))
  }

  lemma RootTextStep(client: Client, at: Namespace, step: TextStep, id: MessageId)
    requires AcceptText(client, at, step, id).Some?
    ensures
      var next := AcceptText(client, at, step, id).value;
      if at == [] then AcceptText(RootView(client), at, step, id) == Some(RootView(next)) else RootView(next) == RootView(client)
  {
    hide OfRoot;
    var root, next := RootView(client), AcceptText(client, at, step, id).value;
    if at == [] {
      assert RootView(next).text == AcceptText(root, at, step, id).value.text;
    } else {
      assert RootView(next).text == root.text;
    }
  }

  lemma RootReasoningStep(client: Client, at: Namespace, step: ReasoningStep, id: MessageId)
    requires AcceptReasoning(client, at, step, id).Some?
    ensures
      var next := AcceptReasoning(client, at, step, id).value;
      if at == [] then AcceptReasoning(RootView(client), at, step, id) == Some(RootView(next)) else RootView(next) == RootView(client)
  {
    hide OfRoot;
    var root, next := RootView(client), AcceptReasoning(client, at, step, id).value;
    if at == [] {
      assert RootView(next).reasoning == AcceptReasoning(root, at, step, id).value.reasoning;
    } else {
      assert RootView(next).reasoning == root.reasoning;
    }
  }

  lemma RootToolStep(client: Client, at: Namespace, step: ToolStep, id: ToolId)
    requires AcceptTool(client, at, step, id).Some?
    ensures
      var next := AcceptTool(client, at, step, id).value;
      if at == [] then AcceptTool(RootView(client), at, step, id) == Some(RootView(next)) else RootView(next) == RootView(client)
  {
    var root, next := RootView(client), AcceptTool(client, at, step, id).value;
    forall ids: set<ToolId>
      ensures id.namespace == [] ==> OfRoot(ids + {id}) == OfRoot(ids) + {id} && OfRoot(ids - {id}) == OfRoot(ids) - {id}
      ensures id.namespace != [] ==> OfRoot(ids + {id}) == OfRoot(ids) && OfRoot(ids - {id}) == OfRoot(ids)
      ensures id.namespace == [] ==> (id in OfRoot(ids) <==> id in ids)
    {
    }
    hide OfRoot;
  }

  lemma RootStep(client: Client, event: Event)
    requires Accept(client, event).Some?
    ensures
      var next := Accept(client, event).value;
      if event.source == [] then Accept(RootView(client), event) == Some(RootView(next)) else RootView(next) == RootView(client)
  {
    hide AcceptText, AcceptReasoning, AcceptTool, RootView;
    match event.kind
    case Text(step, id) => RootTextStep(client, event.source, step, id);
    case Reasoning(step, id) => RootReasoningStep(client, event.source, step, id);
    case Tool(step, id) => RootToolStep(client, event.source, step, id);
    case Other =>
  }

  /** A stream that is accepted stays accepted when every subgraph event is hidden. */
  lemma {:induction false} HidingSubgraphsKeepsBalance(client: Client, events: seq<Event>)
    requires AcceptAll(client, events).Some?
    ensures AcceptAll(RootView(client), RootEvents(events)) == Some(RootView(AcceptAll(client, events).value))
    decreases |events|
  {
    if events != [] {
      hide Accept, RootView;
      RootStep(client, events[0]);
      HidingSubgraphsKeepsBalance(Accept(client, events[0]).value, events[1..]);
      if events[0].source == [] {
        assert RootEvents(events)[1..] == RootEvents(events[1..]);
      } else {
        assert RootEvents(events) == RootEvents(events[1..]);
      }
    }
  }

  lemma {:induction false} RootEventsConcatenated(first: seq<Event>, second: seq<Event>)
    ensures RootEvents(first + second) == RootEvents(first) + RootEvents(second)
    decreases |first|
  {
    if first == [] {
      assert first + second == second;
    } else {
      assert (first + second)[1..] == first[1..] + second;
      RootEventsConcatenated(first[1..], second);
    }
  }

  /** Hiding keeps every event of the root graph as often as it occurs, and no other. */
  lemma {:induction false} RootEventsAreKept(events: seq<Event>, event: Event)
    ensures multiset(RootEvents(events))[event] == if event.source == [] then multiset(events)[event] else 0
    decreases |events|
  {
    if events != [] {
      RootEventsAreKept(events[1..], event);
      assert events == [events[0]] + events[1..];
    }
  }

  lemma {:induction false} RootEndsAreEnds(events: seq<Event>)
    requires WithoutEnds(events) == []
    ensures WithoutEnds(RootEvents(events)) == []
    decreases |events|
  {
    if events != [] {
      RootEndsAreEnds(events[1..]);
      WithoutEndsConcatenated(if events[0].source == [] then [events[0]] else [], RootEvents(events[1..]));
    }
  }

  /** The two clients differ at most in what is open in one namespace. */
  ghost predicate AgreeOutside(a: Client, b: Client, at: Namespace) {
    && a.text - {at} == b.text - {at}
    && a.reasoning - {at} == b.reasoning - {at}
    && forall id: ToolId :: id.namespace != at ==> (id in a.running <==> id in b.running)
  }

  /** The root graph's clients see a difference exactly when it is in the root namespace. */
  lemma RootViewsAgree(a: Client, b: Client, at: Namespace)
    requires AgreeOutside(a, b, at)
    ensures SameOpen(RootView(a), RootView(b)) <==> at != [] || SameOpen(a, b)
  {
    if at != [] {
      assert [] in a.text <==> [] in a.text - {at};
      assert [] in b.text <==> [] in b.text - {at};
      assert [] in a.reasoning <==> [] in a.reasoning - {at};
      assert [] in b.reasoning <==> [] in b.reasoning - {at};
      assert [] in a.text ==> a.text[[]] == (a.text - {at})[[]] && b.text[[]] == (b.text - {at})[[]];
      assert [] in a.reasoning ==> a.reasoning[[]] == (a.reasoning - {at})[[]] && b.reasoning[[]] == (b.reasoning - {at})[[]];
      assert OfRoot(a.running) == OfRoot(b.running);
      assert RootView(a).text == RootView(b).text && RootView(a).reasoning == RootView(b).reasoning;
    } else if SameOpen(RootView(a), RootView(b)) {
      RootDecides(a.text, b.text);
      RootDecides(a.reasoning, b.reasoning);
      assert forall id :: id in a.running && id.namespace == [] ==> id in OfRoot(a.running);
      assert forall id :: id in b.running && id.namespace == [] ==> id in OfRoot(b.running);
    }
  }

  lemma RootDecides<V>(a: map<Namespace, V>, b: map<Namespace, V>)
    requires a - {[]} == b - {[]}
    requires (map ns | ns in a && ns == [] :: a[ns]) == (map ns | ns in b && ns == [] :: b[ns])
    ensures a == b
  {
    var ra, rb := map ns | ns in a && ns == [] :: a[ns], map ns | ns in b && ns == [] :: b[ns];
    forall ns
      ensures ns in a <==> ns in b
      ensures ns in a ==> a[ns] == b[ns]
    {
      if ns == [] {
        assert (ns in a <==> ns in ra) && (ns in b <==> ns in rb);
      } else {
        assert (ns in a <==> ns in a - {[]}) && (ns in b <==> ns in b - {[]});
        assert ns in a ==> a[ns] == (a - {[]})[ns] && b[ns] == (b - {[]})[ns];
      }
    }
  }
}

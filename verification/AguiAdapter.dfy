/**
  The adapter's message channel: a stateful converter whose correlation maps decide which lifecycle
  events it emits. What a client has to remember is a view of those maps, and every method emits
  exactly the events that carry the client from the old view to the new one.
 */
module AguiAdapter {
  import opened Outcomes
  import opened AguiEvents
  import opened AguiState

  /** The events carry a client from one view to the next; `published` are those among them that are no ENDs. */
  predicate Emits(before: Client, events: seq<Event>, published: seq<Event>, after: Client) {
    AcceptAll(before, events) == Some(after) && WithoutEnds(events) == published
  }

  lemma EmitsThen(
    before: Client, first: seq<Event>, one: seq<Event>, middle: Client, second: seq<Event>, two: seq<Event>, after: Client)
    requires Emits(before, first, one, middle) && Emits(middle, second, two, after)
    ensures Emits(before, first + second, one + two, after)
  {
    AcceptConcatenated(before, first, second);
    WithoutEndsConcatenated(first, second);
  }

  lemma EmitsNothing(client: Client)
    ensures Emits(client, [], [], client)
  {
  }

  lemma EmitsOne(client: Client, event: Event, after: Client)
    requires Accept(client, event) == Some(after)
    ensures Emits(client, [event], if IsEnd(event) then [] else [event], after)
  {
    AcceptOne(client, event);
    assert [event][1..] == [];
  }

  lemma EmitsTwo(client: Client, first: Event, middle: Client, second: Event, after: Client)
    requires Accept(client, first) == Some(middle) && Accept(middle, second) == Some(after)
    ensures Emits(client, [first, second], (if IsEnd(first) then [] else [first]) + (if IsEnd(second) then [] else [second]), after)
  {
    EmitsOne(client, first, middle);
    EmitsOne(middle, second, after);
    EmitsThen(client, [first], if IsEnd(first) then [] else [first], middle, [second], if IsEnd(second) then [] else [second], after);
    assert [first] + [second] == [first, second];
  }

  predicate AreInverse(slots: map<Slot, ToolId>, slotOf: map<ToolId, Slot>) {
    && (forall s :: s in slots ==> slots[s] in slotOf && slotOf[slots[s]] == s)
    && (forall t :: t in slotOf ==> slotOf[t] in slots && slots[slotOf[t]] == t)
  }

  // ---------------------------------------------------------------- consistency of the maps

  predicate MessagesScoped(messages: map<Namespace, MessageId>) {
    forall ns :: ns in messages ==> messages[ns].namespace == ns
  }

  predicate NeverBoth(reasoning: set<MessageId>, messages: map<Namespace, MessageId>) {
    forall id :: id in reasoning ==> id.namespace !in messages
  }

  /** Live slots belong to running calls, and each running call has its slot. */
  predicate SlotsLive(active: map<ToolId, ActiveTool>, slots: map<Slot, ToolId>) {
    && (forall t :: t in active ==> active[t].slot in slots && slots[active[t].slot] == t)
    && (forall s :: s in slots ==> slots[s] in active && active[slots[s]].slot == s)
  }

  /** The history keeps every slot ever used by this run's own calls, each call in one slot. */
  predicate HistoryKeeps(slots: map<Slot, ToolId>, history: map<Slot, ToolId>, started: set<ToolId>, earlier: set<ToolId>) {
    && (forall s :: s in slots ==> s in history && history[s] == slots[s])
    && (forall s, r :: s in history && r in history && history[s] == history[r] ==> s == r)
    && (forall s :: s in history ==> history[s] in started && history[s] !in earlier && s.message.namespace == history[s].namespace)
  }

  predicate PhasesInStep(active: set<ToolId>, earlier: set<ToolId>, started: set<ToolId>, ended: set<ToolId>, resulted: set<ToolId>) {
    && started == ended + active
    && active !! ended
    && resulted <= ended
    && earlier <= ended
  }

  class Adapter {
    const exposeReasoning: bool
    const exposeSubagents: bool
    /** The calls an earlier request proposed and closed. */
    const earlier: set<ToolId>
    var activeMessages: map<Namespace, MessageId>
    var activeReasoning: set<MessageId>
    var activeTools: map<ToolId, ActiveTool>
    var slots: map<Slot, ToolId>
    var slotHistory: map<Slot, ToolId>
    var names: map<ToolId, string>
    var prior: set<ToolId>
    var started: set<ToolId>
    var ended: set<ToolId>
    var results: map<ToolId, Fingerprint>

    ghost predicate Valid()
      reads this
    {
      && MessagesScoped(activeMessages)
      && OnePerNamespace(activeReasoning)
      && NeverBoth(activeReasoning, activeMessages)
      && SlotsLive(activeTools, slots)
      && HistoryKeeps(slots, slotHistory, started, earlier)
      && PhasesInStep(activeTools.Keys, earlier, started, ended, results.Keys)
      && prior <= earlier
    }

    /** Everything the adapter remembers. */
    ghost function Current(): State
      reads this
    {
      State(activeMessages, activeReasoning, activeTools, slots, slotHistory, names, prior, started, ended, results)
    }

    /** What a client that received every event knows. */
    ghost function View(): Client
      reads this
      requires OnePerNamespace(activeReasoning)
    {
      ViewOf(Current())
    }

    constructor (exposeReasoning: bool, exposeSubagents: bool, prior: set<ToolId>)
      ensures Valid() && Current() == NewState(prior) && View() == NewClient(prior)
      ensures this.exposeReasoning == exposeReasoning && this.exposeSubagents == exposeSubagents && earlier == prior
    {
      this.exposeReasoning, this.exposeSubagents, earlier := exposeReasoning, exposeSubagents, prior;
      activeMessages, activeReasoning, activeTools, slots, slotHistory := map[], {}, map[], map[], map[];
      names, this.prior, started, ended, results := map[], prior, prior, prior, map[];
    }

    lemma Covers()
      requires Valid()
      ensures HistoryCovers(Current())
    {
    }

    // -------------------------------------------------------------- closing

    method CloseMessage(ns: Namespace) returns (events: seq<Event>)
      requires Valid()
      modifies this`activeMessages
      ensures Valid() && activeMessages == old(activeMessages) - {ns}
      ensures Emits(old(View()), events, [], View())
      ensures events == if ns in old(activeMessages) then [Event(ns, Text(TextEnd, old(activeMessages)[ns]))] else []
    {
      if ns !in activeMessages {
        assert activeMessages == old(activeMessages) - {ns};
        return [];
      }
      events := [Event(ns, Text(TextEnd, activeMessages[ns]))];
      EmitsOne(View(), events[0], View().(text := activeMessages - {ns}));
      activeMessages := activeMessages - {ns};
    }

    method CloseReasoning(ns: Namespace) returns (events: seq<Event>)
      requires Valid()
      modifies this`activeReasoning
      ensures Valid() && activeReasoning == Outside(old(activeReasoning), ns)
      ensures Emits(old(View()), events, [], View())
    {
      events := [];
      var remaining := set id | id in activeReasoning && id.namespace == ns;
      while remaining != {}
        invariant Valid() && remaining == set id | id in activeReasoning && id.namespace == ns
        invariant activeReasoning - remaining == Outside(old(activeReasoning), ns)
        invariant Emits(old(View()), events, [], View())
        decreases remaining
      {
        var id :| id in remaining;
        hide MessagesScoped, SlotsLive, HistoryKeeps, PhasesInStep, Emits, ReasoningView, Outside;
        var closing := [Event(ns, Reasoning(ReasoningMessageEnd, id)), Event(ns, Reasoning(ReasoningEnd, id))];
        ReasoningCloses(View(), activeReasoning, id);
        EmitsThen(old(View()), events, [], View(), closing, [], View().(reasoning := ReasoningView(activeReasoning - {id})));
        activeReasoning, remaining := activeReasoning - {id}, remaining - {id};
        events := events + closing;
      }
    }

    method CloseTool(id: ToolId) returns (events: seq<Event>)
      requires Valid()
      modifies this`activeTools, this`slots, this`ended
      ensures Valid() && Current() == WithoutTools(old(Current()), {id})
      ensures Emits(old(View()), events, [], View())
      ensures events == if id in old(activeTools) then [Event(id.namespace, Tool(ToolEnd, id))] else []
    {
      hide MessagesScoped, NeverBoth, SlotsLive, HistoryKeeps, WithoutTools, Emits, ReasoningView, OnePerNamespace;
      EmitsNothing(View());
      OneToolClosed(Current(), id);
      if id !in activeTools {
        return [];
      }
      SlotFreed(activeTools, slots, slotHistory, started, earlier, id);
      ToolCloses(View(), id);
      events := [Event(id.namespace, Tool(ToolEnd, id))];
      slots := slots - {activeTools[id].slot};
      activeTools := activeTools - {id};
      ended := ended + {id};
    }

    /** Close a set of running calls, in any order. */
    method CloseToolsIn(ids: set<ToolId>) returns (events: seq<Event>)
      requires Valid() && ids <= activeTools.Keys
      modifies this`activeTools, this`slots, this`ended
      ensures Valid() && Current() == WithoutTools(old(Current()), ids)
      ensures Emits(old(View()), events, [], View())
    {
      NoToolsClosed(Current());
      hide MessagesScoped, NeverBoth, SlotsLive, HistoryKeeps, PhasesInStep, Emits, ReasoningView, OnePerNamespace, WithoutTools;
      events := [];
      EmitsNothing(View());
      var remaining := ids;
      assert ids - remaining == {};
      while remaining != {}
        invariant Valid() && remaining <= ids && activeTools == old(activeTools) - (ids - remaining)
        invariant Current() == WithoutTools(old(Current()), ids - remaining)
        invariant Emits(old(View()), events, [], View())
        decreases remaining
      {
        var id :| id in remaining;
        ghost var before, closed := View(), ids - remaining;
        var closing := CloseTool(id);
        ToolsClosedThen(old(Current()), closed, {id});
        EmitsThen(old(View()), events, [], before, closing, [], View());
        events, remaining := events + closing, remaining - {id};
        assert closed + {id} == ids - remaining;
      }
      assert ids - remaining == ids;
    }

    method CloseAllReasoning() returns (events: seq<Event>)
      requires Valid()
      modifies this`activeReasoning
      ensures Valid() && activeReasoning == {} && Emits(old(View()), events, [], View())
    {
      hide MessagesScoped, NeverBoth, SlotsLive, HistoryKeeps, PhasesInStep, Emits;
      events := [];
      EmitsNothing(View());
      while activeReasoning != {}
        invariant Valid() && Emits(old(View()), events, [], View())
        decreases activeReasoning
      {
        var id :| id in activeReasoning;
        ghost var before := View();
        var closing := CloseReasoning(id.namespace);
        EmitsThen(old(View()), events, [], before, closing, [], View());
        events := events + closing;
      }
    }

    method CloseAllMessages() returns (events: seq<Event>)
      requires Valid()
      modifies this`activeMessages
      ensures Valid() && activeMessages == map[] && Emits(old(View()), events, [], View())
      ensures forall ns :: ns in old(activeMessages) ==> Event(ns, Text(TextEnd, old(activeMessages)[ns])) in events
    {
      hide MessagesScoped, NeverBoth, SlotsLive, HistoryKeeps, PhasesInStep, Emits;
      events := [];
      EmitsNothing(View());
      while activeMessages.Keys != {}
        invariant Valid() && Emits(old(View()), events, [], View()) && activeMessages.Keys <= old(activeMessages).Keys
        invariant forall ns :: ns in activeMessages ==> activeMessages[ns] == old(activeMessages)[ns]
        invariant forall ns :: ns in old(activeMessages) && ns !in activeMessages ==> Event(ns, Text(TextEnd, old(activeMessages)[ns])) in events
        decreases activeMessages.Keys
      {
        var ns :| ns in activeMessages.Keys;
        ghost var before := View();
        var closing := CloseMessage(ns);
        EmitsThen(old(View()), events, [], before, closing, [], View());
        events := events + closing;
      }
    }

    /** `finish` and `abort` alike: close reasoning, then messages, then tools. */
    method CloseAll() returns (events: seq<Event>)
      requires Valid()
      modifies this`activeMessages, this`activeReasoning, this`activeTools, this`slots, this`ended
      ensures Valid() && Current() == AllClosed(old(Current())) && IsBalanced(View())
      ensures Emits(old(View()), events, [], View())
      ensures forall ns :: ns in old(activeMessages) ==> Event(ns, Text(TextEnd, old(activeMessages)[ns])) in events
    {
      hide MessagesScoped, NeverBoth, SlotsLive, HistoryKeeps, PhasesInStep, Emits;
      var reasoning := CloseAllReasoning();
      ghost var first := View();
      var messages := CloseAllMessages();
      ghost var second := View();
      var tools := CloseToolsIn(activeTools.Keys);
      EmitsThen(old(View()), reasoning, [], first, messages, [], second);
      EmitsThen(old(View()), reasoning + messages, [], second, tools, [], View());
      events := reasoning + messages + tools;
    }

    // -------------------------------------------------------------- reasoning and text

    method EmitReasoning(ns: Namespace, chunk: Chunk) returns (events: seq<Event>)
      requires Valid()
      modifies this`activeMessages, this`activeReasoning
      ensures Valid() && Current() == AfterReasoning(old(Current()), MessageId(ns, chunk.id))
      ensures Emits(old(View()), events, ReasoningEvents(old(Current()), MessageId(ns, chunk.id)), View())
      ensures ns !in activeMessages && MessageId(ns, chunk.id) in activeReasoning
    {
      hide MessagesScoped, SlotsLive, HistoryKeeps, PhasesInStep, Emits, ReasoningView;
      var id := MessageId(ns, chunk.id);
      events := CloseMessage(ns);
      ghost var closed := View();
      ghost var begun: seq<Event> := [];
      if id !in activeReasoning {
        var closing := CloseReasoning(ns);
        ghost var idle := View();
        EmitsThen(old(View()), events, [], closed, closing, [], idle);
        ReasoningOpens(idle, activeReasoning, id);
        var opening := [Event(ns, Reasoning(ReasoningStart, id)), Event(ns, Reasoning(ReasoningMessageStart, id))];
        activeReasoning := activeReasoning + {id};
        EmitsThen(old(View()), events + closing, [], idle, opening, opening, View());
        events, begun := events + closing + opening, opening;
        assert [] + opening == opening;
      }
      var content := Event(ns, Reasoning(ReasoningContent, id));
      ReasoningContinues(View(), activeReasoning, id);
      EmitsThen(old(View()), events, begun, View(), [content], [content], View());
      events := events + [content];
    }

    /** Make this the open message of the namespace, closing another one first. */
    method OpenMessage(ns: Namespace, id: MessageId) returns (events: seq<Event>)
      requires Valid() && id.namespace == ns && forall r :: r in activeReasoning ==> r.namespace != ns
      modifies this`activeMessages
      ensures Valid() && activeMessages == old(activeMessages)[ns := id]
      ensures Emits(old(View()), events, OpeningEvents(old(activeMessages), id), View())
    {
      hide OnePerNamespace, SlotsLive, HistoryKeeps, PhasesInStep, Emits;
      EmitsNothing(View());
      if ns in activeMessages && activeMessages[ns] == id {
        assert activeMessages == old(activeMessages)[ns := id];
        return [];
      }
      events := CloseMessage(ns);
      ghost var closed := View();
      TextOpens(closed, activeReasoning, id);
      activeMessages := activeMessages[ns := id];
      var opening := [Event(ns, Text(TextStart, id))];
      EmitsThen(old(View()), events, [], closed, opening, opening, View());
      assert [] + opening == opening;
      events := events + opening;
    }

    /** Visible text or attachments: reasoning ends, the message opens, the content follows. */
    method EmitContent(ns: Namespace, id: MessageId, step: TextStep) returns (events: seq<Event>)
      requires Valid() && id.namespace == ns && (step.TextContent? || step.TextAttachments?)
      modifies this`activeMessages, this`activeReasoning
      ensures Valid() && Current() == AfterContent(old(Current()), id)
      ensures Emits(old(View()), events, ContentEvents(old(Current()), id, step), View())
    {
      hide MessagesScoped, OnePerNamespace, NeverBoth, SlotsLive, HistoryKeeps, PhasesInStep, Emits;
      var closing := CloseReasoning(ns);
      ghost var idle := View();
      var opening := OpenMessage(ns, id);
      ghost var open, begun := View(), OpeningEvents(old(activeMessages), id);
      TextContinues(open, id, step);
      EmitsThen(old(View()), closing, [], idle, opening, begun, open);
      assert [] + begun == begun;
      EmitsThen(old(View()), closing + opening, begun, open, [Event(ns, Text(step, id))], [Event(ns, Text(step, id))], open);
      events := closing + opening + [Event(ns, Text(step, id))];
    }

    // -------------------------------------------------------------- tool fragments

    /** The staged walk over a chunk's fragments, which changes nothing. */
    method ValidateFragments(message: MessageId, fragments: seq<Fragment>) returns (valid: bool)
      requires Valid()
      ensures valid == FragmentsFit(slotHistory, names, ended, prior, message, fragments)
    {
      var available, staged := slotHistory, names;
      var slotOf := map s | s in slotHistory :: slotHistory[s] := s;
      var i := 0;
      while i < |fragments|
        invariant 0 <= i <= |fragments| && AreInverse(available, slotOf)
        invariant FragmentsFit(slotHistory, names, ended, prior, message, fragments)
              <==> FragmentsFit(available, staged, ended, prior, message, fragments[i..])
      {
        var f := fragments[i];
        assert fragments[i..][0] == f && fragments[i..][1..] == fragments[i + 1..];
        if f.index.None? {
          return false;
        }
        var slot := Slot(message, f.index.value);
        if IsContinuation(f) {
          if slot !in available {
            return false;
          }
        } else {
          if !IsStart(f) {
            return false;
          }
          var tool := ToolId(message.namespace, f.id.value);
          if (tool in ended && tool !in prior)
             || (tool in slotOf && slotOf[tool] != slot)
             || (slot in available && available[slot] != tool)
             || (tool in staged && staged[tool] != f.name.value) {
            return false;
          }
          staged := staged[tool := f.name.value];
          if tool !in ended {
            available, slotOf := available[slot := tool], slotOf[tool := slot];
          }
        }
        i := i + 1;
      }
      return true;
    }

    method StartTool(tool: ToolId, name: string, slot: Slot) returns (events: seq<Event>)
      requires Valid() && tool !in started && slot !in slotHistory && slot.message.namespace == tool.namespace
      modifies this`activeTools, this`slots, this`slotHistory, this`names, this`started
      ensures Valid() && Current() == WithCall(old(Current()), tool, name, slot)
      ensures events == [Event(tool.namespace, Tool(ToolStart, tool))] && Emits(old(View()), events, events, View())
    {
      hide MessagesScoped, OnePerNamespace, NeverBoth, SlotsLive, HistoryKeeps, Emits, ReasoningView;
      SlotTaken(activeTools, slots, slotHistory, started, earlier, tool, ActiveTool(name, slot, ""));
      ToolOpens(View(), tool);
      activeTools := activeTools[tool := ActiveTool(name, slot, "")];
      names := names[tool := name];
      slots, slotHistory := slots[slot := tool], slotHistory[slot := tool];
      started := started + {tool};
      assert activeTools.Keys == old(activeTools).Keys + {tool};
      events := [Event(tool.namespace, Tool(ToolStart, tool))];
    }

    method AppendArguments(tool: ToolId, args: string) returns (events: seq<Event>)
      requires Valid() && tool in activeTools && args != ""
      modifies this`activeTools
      ensures Valid() && Current() == WithArguments(old(Current()), tool, args)
      ensures events == [Event(tool.namespace, Tool(ToolArgs, tool))] && Emits(old(View()), events, events, View())
    {
      hide MessagesScoped, OnePerNamespace, NeverBoth, HistoryKeeps, Emits, ReasoningView;
      ToolContinues(View(), tool);
      activeTools := activeTools[tool := activeTools[tool].(arguments := activeTools[tool].arguments + args)];
      assert activeTools.Keys == old(activeTools).Keys;
      events := [Event(tool.namespace, Tool(ToolArgs, tool))];
    }

    /** Start the call if it is new, and pass its arguments on while it runs. */
    method ServeCall(tool: ToolId, name: string, slot: Slot, args: string) returns (events: seq<Event>)
      requires Valid() && (tool !in activeTools && tool !in ended ==>
                             tool !in started && slot !in slotHistory && slot.message.namespace == tool.namespace)
      modifies this`activeTools, this`slots, this`slotHistory, this`names, this`started
      ensures Valid() && Current() == ServedCall(old(Current()), tool, name, slot, args)
      ensures Emits(old(View()), events, CallEvents(old(Current()), tool, args), View())
    {
      assert tool in activeTools ==> tool !in ended;
      hide MessagesScoped, OnePerNamespace, NeverBoth, SlotsLive, HistoryKeeps, PhasesInStep, Emits, ReasoningView;
      EmitsNothing(View());
      events := [];
      if tool !in activeTools && tool !in ended {
        events := StartTool(tool, name, slot);
      }
      ghost var middle := View();
      if tool in activeTools && args != "" {
        var more := AppendArguments(tool, args);
        EmitsThen(old(View()), events, events, middle, more, more, View());
        events := events + more;
      }
    }

    /** One fragment; it fails on a continuation whose slot is no longer live. */
    method EmitFragment(message: MessageId, f: Fragment, ghost staged: map<ToolId, string>) returns (ok: bool, events: seq<Event>)
      requires Valid() && FragmentFits(slotHistory, staged, ended - prior, message, f)
      modifies this`activeTools, this`slots, this`slotHistory, this`names, this`started
      ensures Valid() && Emits(old(View()), events, ServedEvents(old(Current()), message, f), View())
      ensures ok <==> !(IsContinuation(f) && Slot(message, f.index.value) !in old(slots))
      ensures ok <==> CallOf(old(Current()), message, f).Some?
      ensures Current() == Served(old(Current()), message, f)
      ensures !ok ==> Current() == old(Current()) && ServedEvents(old(Current()), message, f) == []
      ensures ok <==> !Continues(StaleSlots(old(Current())), message, f)
      ensures ok ==> slotHistory == SlotsAfter(old(slotHistory), ended, message, f)
      ensures StaleSlots(Current()) == StaleSlots(old(Current()))
    {
      var slot := Slot(message, f.index.value);
      EmitsNothing(View());
      if IsContinuation(f) && slot !in slots {
        return false, [];
      }
      var tool := if IsContinuation(f) then slots[slot] else ToolId(message.namespace, f.id.value);
      FittingFragment(activeTools, slots, slotHistory, earlier, prior, started, ended, results.Keys, staged, message, f, tool);
      Covers();
      ServedStep(Current(), message, f, staged);
      // A slot never changes its call, so no earlier call has to be closed here.
      assert slot in slots ==> slots[slot] == tool;
      hide MessagesScoped, OnePerNamespace, NeverBoth, SlotsLive, HistoryKeeps, PhasesInStep, Emits, FragmentFits, SlotsAfter, ReasoningView;
      hide ServedCall, CallEvents, HistoryCovers, StaleSlots;
      events := ServeCall(tool, NameIn(f), slot, f.args);
      return true, events;
    }

    /** The fragments of a chunk, up to the first whose slot is stale. */
    method EmitFragments(message: MessageId, fragments: seq<Fragment>) returns (ok: bool, events: seq<Event>)
      requires Valid() && FragmentsFit(slotHistory, names, ended, prior, message, fragments)
      modifies this`activeTools, this`slots, this`slotHistory, this`names, this`started
      ensures Valid() && Emits(old(View()), events, ServedAllEvents(old(Current()), message, fragments), View())
      ensures Current() == ServedAll(old(Current()), message, fragments)
      ensures ok <==> !ContinuesAny(StaleSlots(old(Current())), message, fragments)
    {
      hide MessagesScoped, OnePerNamespace, NeverBoth, SlotsLive, HistoryKeeps, PhasesInStep, Emits, SlotsAfter, ReasoningView;
      hide Served, ServedEvents, CallOf, StaleSlots, Continues, FragmentFits, IsContinuation, NamesAfter;
      ghost var staged, stale, sent := names, StaleSlots(Current()), [];
      events := [];
      EmitsNothing(View());
      var i := 0;
      while i < |fragments|
        invariant 0 <= i <= |fragments| && Valid() && Emits(old(View()), events, sent, View())
        invariant FragmentsFit(slotHistory, staged, ended, prior, message, fragments[i..])
        invariant StaleSlots(Current()) == stale
        invariant forall j :: 0 <= j < i ==> !Continues(stale, message, fragments[j])
        invariant ServedAll(Current(), message, fragments[i..]) == ServedAll(old(Current()), message, fragments)
        invariant sent + ServedAllEvents(Current(), message, fragments[i..]) == ServedAllEvents(old(Current()), message, fragments)
      {
        var f := fragments[i];
        assert fragments[i..][0] == f && fragments[i..][1..] == fragments[i + 1..];
        ghost var before, was := View(), Current();
        var more;
        ok, more := EmitFragment(message, f, staged);
        EmitsThen(old(View()), events, sent, before, more, ServedEvents(was, message, f), View());
        events := events + more;
        if !ok {
          assert Continues(stale, message, fragments[i]);
          assert sent + [] == sent;
          return;
        }
        sent := sent + ServedEvents(was, message, f);
        staged := NamesAfter(staged, message, f);
        i := i + 1;
      }
      assert sent + [] == sent;
      return true, events;
    }

    // -------------------------------------------------------------- message parts

    /** Nothing is open in this namespace. */
    ghost predicate IsIdle(ns: Namespace)
      reads this
    {
      && ns !in activeMessages
      && (forall r :: r in activeReasoning ==> r.namespace != ns)
      && (forall t :: t in activeTools ==> t.namespace != ns)
    }

    /** The provider's final frame ends everything open in its namespace. */
    method CloseNamespace(ns: Namespace) returns (events: seq<Event>)
      requires Valid()
      modifies this`activeMessages, this`activeReasoning, this`activeTools, this`slots, this`ended
      ensures Valid() && Current() == Vacated(old(Current()), ns) && IsIdle(ns)
      ensures Emits(old(View()), events, [], View())
    {
      hide MessagesScoped, OnePerNamespace, NeverBoth, SlotsLive, HistoryKeeps, PhasesInStep, Emits;
      var tools := CloseToolsIn(set id | id in activeTools && id.namespace == ns);
      ghost var first := View();
      var reasoning := CloseReasoning(ns);
      ghost var second := View();
      var message := CloseMessage(ns);
      EmitsThen(old(View()), tools, [], first, reasoning, [], second);
      EmitsThen(old(View()), tools + reasoning, [], second, message, [], View());
      events := tools + reasoning + message;
    }

    /** Reasoning first; then another message's text ends. */
    method EmitLeading(ns: Namespace, chunk: Chunk) returns (events: seq<Event>)
      requires Valid()
      modifies this`activeMessages, this`activeReasoning
      ensures Valid() && Current() == Led(exposeReasoning, old(Current()), MessageId(ns, chunk.id), chunk)
      ensures Emits(old(View()), events, LedEvents(exposeReasoning, old(Current()), MessageId(ns, chunk.id), chunk), View())
    {
      hide MessagesScoped, OnePerNamespace, NeverBoth, SlotsLive, HistoryKeeps, PhasesInStep, Emits, ReasoningEvents;
      EmitsNothing(View());
      var reasoning := [];
      if exposeReasoning && chunk.reasoning != "" {
        reasoning := EmitReasoning(ns, chunk);
      }
      var closing := [];
      if ns in activeMessages && activeMessages[ns] != MessageId(ns, chunk.id) {
        closing := CloseMessage(ns);
      }
      events := closing + reasoning;
      assert closing == [] ==> events == reasoning;
      assert reasoning == [] ==> events == closing;
      assert ns !in old(activeMessages) ==> old(activeMessages) - {ns} == old(activeMessages);
    }

    /** The visible content of a chunk. */
    method EmitVisible(ns: Namespace, chunk: Chunk) returns (events: seq<Event>)
      requires Valid()
      modifies this`activeMessages, this`activeReasoning
      ensures Valid() && Current() == Displayed(old(Current()), MessageId(ns, chunk.id), chunk)
      ensures Emits(old(View()), events, DisplayedEvents(old(Current()), MessageId(ns, chunk.id), chunk), View())
    {
      hide MessagesScoped, OnePerNamespace, NeverBoth, SlotsLive, HistoryKeeps, PhasesInStep, Emits;
      var id := MessageId(ns, chunk.id);
      EmitsNothing(View());
      events := [];
      ghost var sent: seq<Event> := [];
      if chunk.text != "" {
        events := EmitContent(ns, id, TextContent);
        sent := ContentEvents(old(Current()), id, TextContent);
      }
      ghost var before, was := View(), Current();
      if chunk.hasAttachments {
        var more := EmitContent(ns, id, TextAttachments);
        EmitsThen(old(View()), events, sent, before, more, ContentEvents(was, id, TextAttachments), View());
        events, sent := events + more, sent + ContentEvents(was, id, TextAttachments);
      }
      if chunk.fragments != [] {
        ghost var middle := View();
        var more := CloseReasoning(ns);
        EmitsThen(old(View()), events, sent, middle, more, [], View());
        assert sent + [] == sent;
        events := events + more;
      }
      DisplayedInOrder(old(Current()), id, chunk);
      assert sent == DisplayedEvents(old(Current()), id, chunk);
    }

    /**
      One validated model chunk. When it fails, `events` is what it had collected and never published,
      although the maps have already moved on.
     */
    method ProcessChunk(ns: Namespace, chunk: Chunk) returns (ok: bool, events: seq<Event>)
      requires Valid() && FragmentsFit(slotHistory, names, ended, prior, MessageId(ns, chunk.id), chunk.fragments)
      modifies this
      ensures Valid() && Current() == AfterChunk(exposeReasoning, old(Current()), MessageId(ns, chunk.id), chunk)
      ensures Emits(old(View()), events, SpokenEvents(exposeReasoning, old(Current()), MessageId(ns, chunk.id), chunk), View())
      ensures ok <==> !IsLate(old(Current()), MessageId(ns, chunk.id), chunk)
      ensures ok && chunk.isLast ==> IsIdle(ns)
    {
      var id := MessageId(ns, chunk.id);
      hide MessagesScoped, OnePerNamespace, NeverBoth, SlotsLive, HistoryKeeps, PhasesInStep, Emits, FragmentsFit;
      EmitsNothing(View());
      if IsEmptyChunk(exposeReasoning, chunk) {
        // An empty final frame is a boundary, any other empty frame a heartbeat.
        events := [];
        if chunk.isLast {
          events := CloseNamespace(ns);
        }
        return true, events;
      }
      hide Vacated, ServedAll, ServedAllEvents, ContinuesAny, DisplayedEvents, LedEvents;
      var visible, fragments, closing;
      events := EmitLeading(ns, chunk);
      ghost var led, one := View(), Current();
      visible := EmitVisible(ns, chunk);
      ghost var shown, two := View(), Current();
      EmitsThen(old(View()), events, LedEvents(exposeReasoning, old(Current()), id, chunk), led, visible, DisplayedEvents(one, id, chunk), shown);
      ok, fragments := EmitFragments(id, chunk.fragments);
      ghost var ran, sent := View(), LedEvents(exposeReasoning, old(Current()), id, chunk) + DisplayedEvents(one, id, chunk);
      EmitsThen(old(View()), events + visible, sent, shown, fragments, ServedAllEvents(two, id, chunk.fragments), ran);
      events, sent := events + visible + fragments, sent + ServedAllEvents(two, id, chunk.fragments);
      if ok && chunk.isLast {
        closing := CloseNamespace(ns);
        EmitsThen(old(View()), events, sent, ran, closing, [], View());
        assert sent + [] == sent;
        events := events + closing;
      }
    }

    /** Start and end a call known only from its result, or end one still running. */
    method SettleTool(tool: ToolId, name: string) returns (events: seq<Event>)
      requires Valid()
      modifies this`activeTools, this`slots, this`names, this`started, this`ended
      ensures Valid() && tool in ended && Current() == Settled(old(Current()), tool, name)
      ensures Emits(old(View()), events, if tool in old(started) then [] else [Event(tool.namespace, Tool(ToolStart, tool))], View())
    {
      hide MessagesScoped, OnePerNamespace, NeverBoth, Emits, ReasoningView;
      EmitsNothing(View());
      events := [];
      if tool !in started {
        names := names[tool := name];
        ToolOpensAndCloses(View(), tool);
        StartedMore(slots, slotHistory, started, earlier, tool);
        events := [Event(tool.namespace, Tool(ToolStart, tool)), Event(tool.namespace, Tool(ToolEnd, tool))];
        started, ended := started + {tool}, ended + {tool};
      } else if tool !in ended {
        events := CloseTool(tool);
      } else {
        OneToolClosed(Current(), tool);
      }
    }

    /** Record a call's only result; nothing opens again for an earlier request's call. */
    method RecordResult(tool: ToolId, fingerprint: Fingerprint) returns (events: seq<Event>)
      requires Valid() && tool in ended && tool !in results
      modifies this`results, this`prior
      ensures Valid() && results == old(results)[tool := fingerprint] && prior == old(prior) - {tool}
      ensures events == [Event(tool.namespace, Tool(ToolResult, tool))] && Emits(old(View()), events, events, View())
    {
      hide MessagesScoped, OnePerNamespace, NeverBoth, SlotsLive, Emits, ReasoningView;
      ToolResults(View(), tool);
      results := results[tool := fingerprint];
      prior := prior - {tool};
      assert results.Keys == old(results).Keys + {tool};
      events := [Event(tool.namespace, Tool(ToolResult, tool))];
    }

    /** A tool result: refused without any change, an exact replay, or the call's completion. */
    method ProcessToolResult(ns: Namespace, m: ToolMessage) returns (ok: bool, events: seq<Event>)
      requires Valid()
      modifies this
      ensures Valid() && Current() == AfterResult(old(Current()), ns, m)
      ensures Emits(old(View()), events, ResultEvents(old(Current()), ns, m), View())
      ensures ok <==> FitsResult(old(Current()), ns, m)
      ensures !ok || ToolId(ns, m.callId) in old(results) ==> events == [] && Current() == old(Current())
      ensures ok ==> ToolId(ns, m.callId) in ended && ToolId(ns, m.callId) in results
    {
      hide MessagesScoped, OnePerNamespace, NeverBoth, SlotsLive, HistoryKeeps, Emits;
      EmitsNothing(View());
      var tool := ToolId(ns, m.callId);
      if ContradictsName(names, ns, m) {
        return false, [];
      }
      var fingerprint := FingerprintOf(names, ns, m);
      var name := fingerprint.name;
      if tool in results {
        return results[tool] == fingerprint, [];
      }
      hide ContradictsName, FingerprintOf;
      var reasoning := CloseReasoning(ns);
      ghost var first := View();
      var message := CloseMessage(ns);
      ghost var second := View();
      var settled := SettleTool(tool, name);
      ghost var third, begun := View(), if tool in old(started) then [] else [Event(ns, Tool(ToolStart, tool))];
      var result := RecordResult(tool, fingerprint);
      EmitsThen(old(View()), reasoning, [], first, message, [], second);
      EmitsThen(old(View()), reasoning + message, [], second, settled, begun, third);
      assert [] + begun == begun;
      EmitsThen(old(View()), reasoning + message + settled, begun, third, result, result, View());
      return true, reasoning + message + settled + result;
    }

    // -------------------------------------------------------------- parts

    /**
      Convert one part. `all` are the events before subgraph events are hidden. A part is refused when it
      is not well formed, and then nothing changes, or when it continues an ended call; the events of
      such a part are lost.
     */
    method Process(part: Part) returns (ok: bool, events: seq<Event>, ghost all: seq<Event>)
      requires Valid()
      modifies this
      ensures Valid() && events == Shown(exposeSubagents, all)
      ensures ok <==> IsConverted(old(Current()), part)
      ensures Current() == After(exposeReasoning, old(Current()), part)
      ensures ok ==> Emits(old(View()), all, PublishedOf(exposeReasoning, old(Current()), part), View())
      ensures !ok ==> all == []
    {
      hide MessagesScoped, OnePerNamespace, NeverBoth, SlotsLive, HistoryKeeps, PhasesInStep, Emits, FragmentsFit;
      hide AfterChunk, SpokenEvents, IsLate, FitsNames, AfterResult, ResultEvents, FitsResult, AllClosed;
      EmitsNothing(View());
      var found: seq<Event> := [];
      match part {
        case ModelMessage(ns, chunk) =>
          if chunk.id == "" {
            return false, [], [];
          }
          var valid := ValidateFragments(MessageId(ns, chunk.id), chunk.fragments);
          if !valid {
            return false, [], [];
          }
          ok, found := ProcessChunk(ns, chunk);
        case ToolPart(ns, m) =>
          ok, found := ProcessToolResult(ns, m);
        case RootValues =>
          found := CloseAll();
          ok := true;
        case TaskStart(learned) =>
          if !FitsNames(names, learned) {
            return false, [], [];
          }
          names := names + learned;
          ok := true;
        case Elsewhere => ok := true;
      }
      if !ok {
        return false, [], [];
      }
      all := found;
      events := if exposeSubagents then found else RootEvents(found);
    }

    /** `finish` refuses while child interrupts are unresolved; otherwise it closes everything. */
    method Finish(unresolvedChildren: bool) returns (ok: bool, events: seq<Event>, ghost all: seq<Event>)
      requires Valid()
      modifies this
      ensures Valid() && events == Shown(exposeSubagents, all)
      ensures ok == !unresolvedChildren
      ensures ok ==> Current() == AllClosed(old(Current())) && Emits(old(View()), all, [], View()) && IsBalanced(View())
      ensures !ok ==> all == [] && Current() == old(Current())
    {
      if unresolvedChildren {
        return false, [], [];
      }
      events, all := Abort();
      ok := true;
    }

    method Abort() returns (events: seq<Event>, ghost all: seq<Event>)
      requires Valid()
      modifies this
      ensures Valid() && events == Shown(exposeSubagents, all)
      ensures Current() == AllClosed(old(Current())) && Emits(old(View()), all, [], View()) && IsBalanced(View())
      ensures forall ns :: ns in old(activeMessages) ==> Event(ns, Text(TextEnd, old(activeMessages)[ns])) in all
    {
      var closing := CloseAll();
      all := closing;
      events := if exposeSubagents then closing else RootEvents(closing);
    }
  }

  // ---------------------------------------------------------------- whole runs

  function Shown(exposeSubagents: bool, events: seq<Event>): seq<Event> {
    if exposeSubagents then events else RootEvents(events)
  }

  function ShownTo(exposeSubagents: bool, client: Client): Client {
    if exposeSubagents then client else RootView(client)
  }

  lemma ShownThen(expose: bool, first: seq<Event>, second: seq<Event>)
    ensures Shown(expose, first + second) == Shown(expose, first) + Shown(expose, second)
    ensures Shown(expose, []) == []
  {
    RootEventsConcatenated(first, second);
  }

  /** A stream that ends with closing events is balanced exactly when they close what it left open. */
  lemma ClosedStream(start: Client, events: seq<Event>, left: Client, closing: seq<Event>, open: Client)
    requires AcceptAll(start, events) == Some(left) && WithoutEnds(closing) == [] && IsBalancedStream(open, closing)
    ensures IsBalancedStream(start, events + closing) <==> SameOpen(left, open)
  {
    AcceptConcatenated(start, events, closing);
    ClosingsFit(left, open, closing);
  }

  /** The same where every subgraph event is hidden: only a difference in the root namespace is seen. */
  lemma ClosedRootStream(start: Client, events: seq<Event>, left: Client, closing: seq<Event>, open: Client, at: Namespace)
    requires AcceptAll(start, events) == Some(left) && WithoutEnds(closing) == [] && IsBalancedStream(open, closing)
    requires AgreeOutside(left, open, at)
    ensures IsBalancedStream(RootView(start), RootEvents(events + closing)) <==> at != [] || SameOpen(left, open)
  {
    HidingSubgraphsKeepsBalance(start, events);
    HidingSubgraphsKeepsBalance(open, closing);
    var end := AcceptAll(open, closing).value;
    assert RootView(end).text == map[] && RootView(end).reasoning == map[] && RootView(end).running == {};
    RootEndsAreEnds(closing);
    RootEventsConcatenated(events, closing);
    ClosedStream(RootView(start), RootEvents(events), RootView(left), RootEvents(closing), RootView(open));
    RootViewsAgree(left, open, at);
  }

  /** How many parts are converted before one is refused. */
  function ConvertedCount(parts: seq<Part>, refused: Option<nat>): nat {
    match refused
    case None => |parts|
    case Some(i) => i
  }

  /** The run stopped at a part whose lifecycle events were lost. */
  ghost predicate StopsWithLoss(expose: bool, prior: set<ToolId>, parts: seq<Part>, refused: Option<nat>) {
    && refused.Some? && refused.value < |parts|
    && LosesLifecycle(expose, StateAfter(expose, NewState(prior), parts[..refused.value]), parts[refused.value])
  }

  /** This is the first part that is refused, or none is. */
  ghost predicate IsFirstRefused(expose: bool, prior: set<ToolId>, parts: seq<Part>, refused: Option<nat>) {
    var n := ConvertedCount(parts, refused);
    && n <= |parts|
    && AllConverted(expose, NewState(prior), parts[..n])
    && (refused.Some? ==> n < |parts| && !IsConverted(StateAfter(expose, NewState(prior), parts[..n]), parts[n]))
  }

  /**
    A whole run: parts until one is refused, then everything is closed, by `finish` or, after a refusal,
    by `abort`. Apart from ENDs the stream is what the parts before the refused one publish. It is
    accepted to its end and leaves nothing open exactly unless the run stopped at a part that continues
    an ended call and had already changed what is open; hiding subgraphs hides that too, unless the part
    belongs to the root graph.
   */
  method ConvertRun(exposeReasoning: bool, exposeSubagents: bool, prior: set<ToolId>, parts: seq<Part>)
    returns (published: seq<Event>, refused: Option<nat>, ghost all: seq<Event>)
    ensures IsFirstRefused(exposeReasoning, prior, parts, refused)
    ensures WithoutEnds(all) == PublishedOfAll(exposeReasoning, NewState(prior), parts[..ConvertedCount(parts, refused)])
    ensures published == Shown(exposeSubagents, all)
    ensures IsBalancedStream(NewClient(prior), all) <==> !StopsWithLoss(exposeReasoning, prior, parts, refused)
    ensures IsBalancedStream(ShownTo(exposeSubagents, NewClient(prior)), published) <==>
            !(StopsWithLoss(exposeReasoning, prior, parts, refused) && (exposeSubagents || parts[refused.value].ns == []))
  {
    hide AcceptAll, IsBalanced, RootEvents, RootView, After, PublishedOf, IsConverted, LosesLifecycle, Emits;
    hide MessagesScoped, OnePerNamespace, NeverBoth, SlotsLive, HistoryKeeps, PhasesInStep, HistoryCovers, ReasoningView;
    var adapter := new Adapter(exposeReasoning, exposeSubagents, prior);
    ghost var first, start := NewState(prior), adapter.View();
    ghost var left := first;
    published, all, refused := [], [], None;
    EmitsNothing(start);
    ShownThen(exposeSubagents, [], []);
    adapter.Covers();
    var i := 0;
    while i < |parts| && refused.None?
      invariant 0 <= i <= |parts| && adapter.Valid() && fresh(adapter)
      invariant adapter.exposeSubagents == exposeSubagents && adapter.exposeReasoning == exposeReasoning
      invariant left == StateAfter(exposeReasoning, first, parts[..i]) && OnePerNamespace(left.reasoning) && HistoryCovers(left)
      invariant AllConverted(exposeReasoning, first, parts[..i])
      invariant Emits(start, all, PublishedOfAll(exposeReasoning, first, parts[..i]), ViewOf(left))
      invariant published == Shown(exposeSubagents, all)
      invariant refused.None? ==> adapter.Current() == left
      invariant refused.Some? ==> refused == Some(i) && i < |parts| && !IsConverted(left, parts[i])
                                  && adapter.Current() == After(exposeReasoning, left, parts[i])
      decreases |parts| - i, refused.None?
    {
      NextPart(exposeReasoning, first, parts, i);
      var ok, events;
      ghost var more;
      ok, events, more := adapter.Process(parts[i]);
      ShownThen(exposeSubagents, all, more);
      if ok {
        EmitsThen(start, all, PublishedOfAll(exposeReasoning, first, parts[..i]), ViewOf(left), more, PublishedOf(exposeReasoning, left, parts[i]), adapter.View());
        published, all, left := published + events, all + more, adapter.Current();
        adapter.Covers();
        i := i + 1;
      } else {
        refused := Some(i);
      }
    }
    ghost var open := adapter.View();
    var closing;
    ghost var more;
    closing, more := adapter.Abort();
    ShownThen(exposeSubagents, all, more);
    RunIsClosed(exposeReasoning, exposeSubagents, prior, parts, refused, left, all, more, open, adapter.View());
    published, all := published + closing, all + more;
  }

  lemma RunIsClosed(
    expose: bool, subagents: bool, prior: set<ToolId>, parts: seq<Part>, refused: Option<nat>, left: State,
    events: seq<Event>, closing: seq<Event>, open: Client, end: Client)
    requires IsFirstRefused(expose, prior, parts, refused)
    requires OnePerNamespace(left.reasoning) && HistoryCovers(left)
    requires left == StateAfter(expose, NewState(prior), parts[..ConvertedCount(parts, refused)])
    requires Emits(NewClient(prior), events, PublishedOfAll(expose, NewState(prior), parts[..ConvertedCount(parts, refused)]), ViewOf(left))
    requires Emits(open, closing, [], end) && IsBalanced(end)
    requires refused.None? ==> open == ViewOf(left)
    requires refused.Some? ==>
               var after := After(expose, left, parts[refused.value]);
               OnePerNamespace(after.reasoning) && open == ViewOf(after)
    ensures
      var lost := StopsWithLoss(expose, prior, parts, refused);
      && WithoutEnds(events + closing) == PublishedOfAll(expose, NewState(prior), parts[..ConvertedCount(parts, refused)])
      && (IsBalancedStream(NewClient(prior), events + closing) <==> !lost)
      && (IsBalancedStream(ShownTo(subagents, NewClient(prior)), Shown(subagents, events + closing)) <==>
          !(lost && (subagents || parts[refused.value].ns == [])))
  {
    hide AcceptAll, WithoutEnds, IsBalanced, RootEvents, RootView, OnePerNamespace, ReasoningView, HistoryCovers, AllConverted, PublishedOfAll;
    WithoutEndsConcatenated(events, closing);
    ghost var at: Namespace := [];
    if refused.Some? && IsWellFormed(left, parts[refused.value]) {
      at := parts[refused.value].ns;
      LateLossIsExact(expose, left, parts[refused.value]);
    }
    hide After, LosesLifecycle, IsWellFormed, IsLatePart, StateAfter, SameOpen, AgreeOutside;
    ClosedStream(NewClient(prior), events, ViewOf(left), closing, open);
    ClosedRootStream(NewClient(prior), events, ViewOf(left), closing, open, at);
  }

  // ---------------------------------------------------------------- the part that is refused too late

  /** A message cannot end that has not started. */
  lemma {:induction false} EndNeedsStart(client: Client, events: seq<Event>, id: MessageId)
    requires id.namespace !in client.text && Event(id.namespace, Text(TextEnd, id)) in events && WithoutEnds(events) == []
    ensures AcceptAll(client, events) == None
    decreases |events|
  {
    var first := events[0];
    if Accept(client, first).Some? {
      assert first != Event(id.namespace, Text(TextEnd, id));
      EndNeedsStart(Accept(client, first).value, events[1..], id);
    }
  }

  const Proposal := Chunk("m", "", false, "", [Fragment(Some(0), Some("t"), Some("search"), "{")], false)
  const Completion := ToolMessage("t", None, None, "done")
  const Continuation := Chunk("m", "answer", false, "", [Fragment(Some(0), None, None, "}")], false)

  /** The call of the proposal is running in its slot. */
  lemma ProposalStarts()
    ensures FragmentsFit(map[], map[], {}, {}, MessageId([], "m"), Proposal.fragments)
    ensures
      var tool, slot := ToolId([], "t"), Slot(MessageId([], "m"), 0);
      AfterChunk(false, NewState({}), MessageId([], "m"), Proposal) ==
      NewState({}).(tools := map[tool := ActiveTool("search", slot, "{")], slots := map[slot := tool], history := map[slot := tool],
                    names := map[tool := "search"], started := {tool})
  {
    var id, slot, start, s := MessageId([], "m"), Slot(MessageId([], "m"), 0), Proposal.fragments[0], NewState({});
    assert Proposal.fragments == [start] && [start][1..] == [];
    assert FragmentFits(map[], map[], {}, id, start);
    assert s.messages - {[]} == map[];
    assert Outside({}, []) == {};
    assert Displayed(Led(false, s, id, Proposal), id, Proposal) == s;
    assert CallOf(s, id, start) == Some(ToolId([], "t"));
    assert WithArguments(WithCall(s, ToolId([], "t"), "search", slot), ToolId([], "t"), "{").tools[ToolId([], "t")] == ActiveTool("search", slot, "{");
  }

  /** After the result the slot is stale, and a continuation in it still passes validation. */
  lemma ContinuationIsLate(s: State)
    requires s.history == map[Slot(MessageId([], "m"), 0) := ToolId([], "t")] && Slot(MessageId([], "m"), 0) !in s.slots
    ensures FragmentsFit(s.history, s.names, s.ended, s.prior, MessageId([], "m"), Continuation.fragments)
    ensures IsLate(s, MessageId([], "m"), Continuation)
  {
    var late := Continuation.fragments[0];
    assert Continuation.fragments[1..] == [];
    assert Continues(StaleSlots(s), MessageId([], "m"), late);
  }

  /**
    A continuation that arrives after its call's result passes validation and is refused only after
    the text beside it was opened, so the client sees the end of a message that never started.
   */
  method LateContinuationBreaksBalance() returns (published: seq<Event>)
    ensures AcceptAll(NewClient({}), published) == None
  {
    ProposalStarts();
    hide AcceptAll, Accept, MessagesScoped, OnePerNamespace, NeverBoth, SlotsLive, HistoryKeeps, PhasesInStep, FragmentsFit, AfterChunk, IsLate;
    hide ReasoningView, SpokenEvents, ResultEvents, HistoryCovers, AllClosed, StartsCall;
    var adapter := new Adapter(false, true, {});
    var ok, proposed := adapter.ProcessChunk([], Proposal);
    ghost var running := adapter.View();
    var completed;
    ok, completed := adapter.ProcessToolResult([], Completion);
    ghost var done := adapter.View();
    ContinuationIsLate(adapter.Current());
    adapter.Covers();
    LateState(false, adapter.Current(), MessageId([], "m"), Continuation);
    var lost;
    ok, lost := adapter.ProcessChunk([], Continuation);
    assert !ok;
    ghost var closingAll;
    var closing;
    closing, closingAll := adapter.Abort();
    AcceptConcatenated(NewClient({}), proposed, completed);
    EndNeedsStart(done, closing, MessageId([], "m"));
    AcceptConcatenated(NewClient({}), proposed + completed, closing);
    published := proposed + completed + closing;
  }

  // ---------------------------------------------------------------- single steps

  lemma NoToolsClosed(s: State)
    ensures WithoutTools(s, {}) == s
  {
    assert WithoutTools(s, {}).slots == s.slots && s.tools - {} == s.tools;
  }

  lemma OneToolClosed(s: State, id: ToolId)
    requires SlotsLive(s.tools, s.slots)
    ensures WithoutTools(s, {id}) ==
            if id in s.tools then s.(tools := s.tools - {id}, slots := s.slots - {s.tools[id].slot}, ended := s.ended + {id}) else s
  {
    var after := WithoutTools(s, {id});
    if id in s.tools {
      assert after.slots == s.slots - {s.tools[id].slot};
      assert s.tools.Keys * {id} == {id};
    } else {
      assert after.slots == s.slots && after.tools == s.tools && s.tools.Keys * {id} == {};
    }
  }

  lemma ToolsClosedThen(s: State, first: set<ToolId>, second: set<ToolId>)
    ensures WithoutTools(WithoutTools(s, first), second) == WithoutTools(s, first + second)
    ensures WithoutTools(s, first + second).tools == s.tools - (first + second)
  {
    var step, once := WithoutTools(WithoutTools(s, first), second), WithoutTools(s, first + second);
    assert step.slots == once.slots;
    assert step.tools == once.tools;
    assert step.ended == once.ended;
  }

  /** Text and attachments one after the other: the second finds the message open. */
  lemma DisplayedInOrder(s: State, id: MessageId, chunk: Chunk)
    ensures
      var first := if chunk.text != "" then AfterContent(s, id) else s;
      var second := if chunk.hasAttachments then AfterContent(first, id) else first;
      && Displayed(s, id, chunk) == (if chunk.fragments != [] then second.(reasoning := Outside(second.reasoning, id.namespace)) else second)
      && DisplayedEvents(s, id, chunk) ==
           (if chunk.text != "" then ContentEvents(s, id, TextContent) else [])
           + (if chunk.hasAttachments then ContentEvents(first, id, TextAttachments) else [])
  {
    var ns := id.namespace;
    assert Outside(Outside(s.reasoning, ns), ns) == Outside(s.reasoning, ns);
    assert s.messages[ns := id][ns := id] == s.messages[ns := id];
    hide Outside;
  }

  lemma SlotFreed(
    active: map<ToolId, ActiveTool>, slots: map<Slot, ToolId>, history: map<Slot, ToolId>, started: set<ToolId>, earlier: set<ToolId>, id: ToolId)
    requires SlotsLive(active, slots) && HistoryKeeps(slots, history, started, earlier) && id in active
    ensures SlotsLive(active - {id}, slots - {active[id].slot})
    ensures HistoryKeeps(slots - {active[id].slot}, history, started, earlier)
  {
  }

  lemma ToolCloses(client: Client, id: ToolId)
    requires id in client.running
    ensures Emits(client, [Event(id.namespace, Tool(ToolEnd, id))], [],
                  client.(running := client.running - {id}, ended := client.ended + {id}))
  {
    EmitsOne(client, Event(id.namespace, Tool(ToolEnd, id)), client.(running := client.running - {id}, ended := client.ended + {id}));
  }

  lemma ToolOpens(client: Client, id: ToolId)
    requires id !in client.running && id !in client.ended
    ensures var opening := [Event(id.namespace, Tool(ToolStart, id))];
            Emits(client, opening, opening, client.(running := client.running + {id}))
  {
    EmitsOne(client, Event(id.namespace, Tool(ToolStart, id)), client.(running := client.running + {id}));
  }

  lemma ToolOpensAndCloses(client: Client, id: ToolId)
    requires id !in client.running && id !in client.ended
    ensures Emits(client, [Event(id.namespace, Tool(ToolStart, id)), Event(id.namespace, Tool(ToolEnd, id))],
                  [Event(id.namespace, Tool(ToolStart, id))], client.(ended := client.ended + {id}))
  {
    assert client.running + {id} - {id} == client.running;
    EmitsTwo(client, Event(id.namespace, Tool(ToolStart, id)), client.(running := client.running + {id}),
             Event(id.namespace, Tool(ToolEnd, id)), client.(ended := client.ended + {id}));
  }

  lemma ToolResults(client: Client, id: ToolId)
    requires id in client.ended && id !in client.resulted
    ensures var result := [Event(id.namespace, Tool(ToolResult, id))];
            Emits(client, result, result, client.(resulted := client.resulted + {id}))
  {
    EmitsOne(client, Event(id.namespace, Tool(ToolResult, id)), client.(resulted := client.resulted + {id}));
  }

  lemma StartedMore(slots: map<Slot, ToolId>, history: map<Slot, ToolId>, started: set<ToolId>, earlier: set<ToolId>, id: ToolId)
    requires HistoryKeeps(slots, history, started, earlier)
    ensures HistoryKeeps(slots, history, started + {id}, earlier)
  {
  }

  lemma ToolContinues(client: Client, id: ToolId)
    requires id in client.running
    ensures var more := [Event(id.namespace, Tool(ToolArgs, id))]; Emits(client, more, more, client)
  {
    EmitsOne(client, Event(id.namespace, Tool(ToolArgs, id)), client);
  }

  lemma ReasoningContinues(client: Client, reasoning: set<MessageId>, id: MessageId)
    requires OnePerNamespace(reasoning) && id in reasoning && client.reasoning == ReasoningView(reasoning)
    ensures var more := [Event(id.namespace, Reasoning(ReasoningContent, id))]; Emits(client, more, more, client)
  {
    ReasoningViewWithout(reasoning, id);
    EmitsOne(client, Event(id.namespace, Reasoning(ReasoningContent, id)), client);
  }

  lemma TextOpens(client: Client, reasoning: set<MessageId>, id: MessageId)
    requires OnePerNamespace(reasoning) && client.reasoning == ReasoningView(reasoning)
    requires id.namespace !in client.text && forall other :: other in reasoning ==> other.namespace != id.namespace
    ensures var opening := [Event(id.namespace, Text(TextStart, id))];
            Emits(client, opening, opening, client.(text := client.text[id.namespace := id]))
  {
    EmitsOne(client, Event(id.namespace, Text(TextStart, id)), client.(text := client.text[id.namespace := id]));
  }

  lemma TextContinues(client: Client, id: MessageId, step: TextStep)
    requires id.namespace in client.text && client.text[id.namespace] == id && (step.TextContent? || step.TextAttachments?)
    ensures var more := [Event(id.namespace, Text(step, id))]; Emits(client, more, more, client)
  {
    EmitsOne(client, Event(id.namespace, Text(step, id)), client);
  }

  /** What validation promises about the call a fragment belongs to. */
  lemma FittingFragment(
    active: map<ToolId, ActiveTool>, slots: map<Slot, ToolId>, history: map<Slot, ToolId>,
    earlier: set<ToolId>, prior: set<ToolId>, started: set<ToolId>, ended: set<ToolId>, resulted: set<ToolId>,
    names: map<ToolId, string>, message: MessageId, f: Fragment, tool: ToolId)
    requires SlotsLive(active, slots) && HistoryKeeps(slots, history, started, earlier)
    requires PhasesInStep(active.Keys, earlier, started, ended, resulted)
    requires FragmentFits(history, names, ended - prior, message, f)
    requires IsContinuation(f) ==> Slot(message, f.index.value) in slots
    requires tool == if IsContinuation(f) then slots[Slot(message, f.index.value)] else ToolId(message.namespace, f.id.value)
    ensures
      var slot := Slot(message, f.index.value);
      && tool.namespace == message.namespace
      && (tool in active || tool in ended ==> tool in started)
      && (slot in slots ==> slots[slot] == tool)
      && (tool !in active && tool !in ended ==> IsStart(f) && tool !in started && slot !in history)
      && (tool in active || tool in ended ==> SlotsAfter(history, ended, message, f) == history)
      && (tool !in active && tool !in ended ==> SlotsAfter(history, ended, message, f) == history[slot := tool])
  {
    if tool in active {
      assert active[tool].slot in slots && history[active[tool].slot] == tool;
    }
  }

  lemma SlotTaken(
    active: map<ToolId, ActiveTool>, slots: map<Slot, ToolId>, history: map<Slot, ToolId>, started: set<ToolId>, earlier: set<ToolId>,
    id: ToolId, tool: ActiveTool)
    requires SlotsLive(active, slots) && HistoryKeeps(slots, history, started, earlier)
    requires id !in started && id !in earlier && tool.slot !in history && tool.slot.message.namespace == id.namespace && id !in active
    ensures SlotsLive(active[id := tool], slots[tool.slot := id])
    ensures HistoryKeeps(slots[tool.slot := id], history[tool.slot := id], started + {id}, earlier)
  {
  }

  lemma ReasoningViewWithout(reasoning: set<MessageId>, id: MessageId)
    requires OnePerNamespace(reasoning) && id in reasoning
    ensures OnePerNamespace(reasoning - {id})
    ensures ReasoningView(reasoning - {id}) == ReasoningView(reasoning) - {id.namespace}
    ensures id.namespace in ReasoningView(reasoning) && ReasoningView(reasoning)[id.namespace] == OpenReasoning(id, true)
  {
  }

  lemma ReasoningCloses(client: Client, reasoning: set<MessageId>, id: MessageId)
    requires OnePerNamespace(reasoning) && id in reasoning && client.reasoning == ReasoningView(reasoning)
    ensures OnePerNamespace(reasoning - {id})
    ensures Emits(client, [Event(id.namespace, Reasoning(ReasoningMessageEnd, id)), Event(id.namespace, Reasoning(ReasoningEnd, id))],
                  [], client.(reasoning := ReasoningView(reasoning - {id})))
  {
    var first, second := Event(id.namespace, Reasoning(ReasoningMessageEnd, id)), Event(id.namespace, Reasoning(ReasoningEnd, id));
    ReasoningViewWithout(reasoning, id);
    hide ReasoningView, OnePerNamespace, Emits;
    var open := client.reasoning;
    assert open[id.namespace := OpenReasoning(id, false)] - {id.namespace} == open - {id.namespace};
    EmitsTwo(client, first, client.(reasoning := open[id.namespace := OpenReasoning(id, false)]),
             second, client.(reasoning := open - {id.namespace}));
  }

  lemma ReasoningViewWith(reasoning: set<MessageId>, id: MessageId)
    requires OnePerNamespace(reasoning) && forall other :: other in reasoning ==> other.namespace != id.namespace
    ensures OnePerNamespace(reasoning + {id}) && id.namespace !in ReasoningView(reasoning)
    ensures ReasoningView(reasoning + {id}) == ReasoningView(reasoning)[id.namespace := OpenReasoning(id, true)]
  {
  }

  lemma ReasoningStarts(client: Client, id: MessageId)
    requires id.namespace !in client.text && id.namespace !in client.reasoning
    ensures
      var opening := [Event(id.namespace, Reasoning(ReasoningStart, id)), Event(id.namespace, Reasoning(ReasoningMessageStart, id))];
      Emits(client, opening, opening, client.(reasoning := client.reasoning[id.namespace := OpenReasoning(id, true)]))
  {
    var first, second := Event(id.namespace, Reasoning(ReasoningStart, id)), Event(id.namespace, Reasoning(ReasoningMessageStart, id));
    hide Emits;
    var open := client.reasoning;
    assert open[id.namespace := OpenReasoning(id, false)][id.namespace := OpenReasoning(id, true)]
        == open[id.namespace := OpenReasoning(id, true)];
    EmitsTwo(client, first, client.(reasoning := open[id.namespace := OpenReasoning(id, false)]),
             second, client.(reasoning := open[id.namespace := OpenReasoning(id, true)]));
    assert [first] + [second] == [first, second];
  }

  lemma ReasoningOpens(client: Client, reasoning: set<MessageId>, id: MessageId)
    requires OnePerNamespace(reasoning) && client.reasoning == ReasoningView(reasoning)
    requires id.namespace !in client.text && forall other :: other in reasoning ==> other.namespace != id.namespace
    ensures OnePerNamespace(reasoning + {id})
    ensures
      var opening := [Event(id.namespace, Reasoning(ReasoningStart, id)), Event(id.namespace, Reasoning(ReasoningMessageStart, id))];
      Emits(client, opening, opening, client.(reasoning := ReasoningView(reasoning + {id})))
  {
    hide Emits, ReasoningView, OnePerNamespace, Accept;
    ReasoningViewWith(reasoning, id);
    ReasoningStarts(client, id);
  }
}

/** The encoder of Responses streams. */
module ResponsesEventStream {
  import opened Wrappers
  import opened Text
  import opened ResponsesEvents
  import G = GenerationService
  import P = ToolCallParser

  datatype FinishReason = NoReason | OutputLimit | ContextCapacity | StopToken | StopString | Cancelled

  datatype Call = Call(id: string, name: string, arguments: string)
  datatype Outcome = Outcome(text: string, reasoning: string, calls: seq<Call>, reason: FinishReason)

  function ResponseStatus(reason: FinishReason): string {
    match reason
    case OutputLimit | ContextCapacity => "incomplete"
    case Cancelled => "cancelled"
    case NoReason | StopToken | StopString => "completed"
  }

  function ItemStatus(reason: FinishReason): string {
    if ResponseStatus(reason) == "completed" then "completed" else "incomplete"
  }

  function ReasoningStatus(o: Outcome): string {
    if o.text != "" || o.calls != [] then "completed" else ItemStatus(o.reason)
  }

  predicate NeedsMessage(o: Outcome) { o.text != "" || o.calls == [] }

  /** The ids of the items a stream has announced; `None` lets `BuildOutput` make up a new one. */
  datatype ItemIds = ItemIds(reasoning: Option<nat>, message: Option<nat>, calls: seq<nat>)

  function IdOr(id: Option<nat>, other: nat): nat { if id.Some? then id.value else other }

  function HeadOutput(o: Outcome, reasoning: Option<nat>, message: Option<nat>, newId: nat): seq<Item> {
    (if o.reasoning == "" then []
     else [Reasoning(IdOr(reasoning, newId), ReasoningStatus(o), [o.reasoning])]) +
    (if !NeedsMessage(o) then []
     else [Message(IdOr(message, newId + 1), ItemStatus(o.reason), [o.text])])
  }

  function CallItem(c: Call, id: nat): Item { FunctionCall(id, "completed", c.id, c.name, c.arguments) }

  function CallOutput(calls: seq<Call>, ids: seq<nat>, newId: nat): seq<Item> {
    seq(|calls|, i requires 0 <= i < |calls| => CallItem(calls[i], if i < |ids| then ids[i] else newId + i))
  }

  /** The `output` array of `build_response`. */
  function BuildOutput(o: Outcome, ids: ItemIds, newId: nat): seq<Item> {
    HeadOutput(o, ids.reasoning, ids.message, newId) + CallOutput(o.calls, ids.calls, newId + 2)
  }

  /** The reasoning if there is any and the message unless there are only calls; `status` and the items' own say whether
      the generation was cut short. */
  ghost predicate HeadAnswers(o: Outcome, status: string, head: seq<Item>) {
    var short := o.reason == OutputLimit || o.reason == ContextCapacity || o.reason == Cancelled;
    var r, m := if o.reasoning == "" then 0 else 1, if o.text == "" && o.calls != [] then 0 else 1;
    && status == (if !short then "completed" else if o.reason == Cancelled then "cancelled" else "incomplete")
    && |head| == r + m
    && (r == 1 ==>
          && head[0].Reasoning? && head[0].content == [o.reasoning]
          && head[0].status == if short && o.text == "" && o.calls == [] then "incomplete" else "completed")
    && (m == 1 ==>
          head[r].Message? && head[r].content == [o.text] && head[r].status == if short then "incomplete" else "completed")
  }

  ghost predicate CallAnswers(c: Call, item: Item) {
    item.FunctionCall? && item.status == "completed" && item.callId == c.id && item.name == c.name && item.arguments == c.arguments
  }

  /** What an answer has to be, item by item, with the calls last and in order. */
  ghost predicate Answers(o: Outcome, status: string, items: seq<Item>) {
    && |o.calls| <= |items|
    && var n := |items| - |o.calls|;
       HeadAnswers(o, status, items[..n]) && forall i | 0 <= i < |o.calls| :: CallAnswers(o.calls[i], items[n + i])
  }

  lemma HeadOutputAnswers(o: Outcome, reasoning: Option<nat>, message: Option<nat>, newId: nat)
    ensures HeadAnswers(o, ResponseStatus(o.reason), HeadOutput(o, reasoning, message, newId))
  {
  }

  lemma JoinAnswers(o: Outcome, status: string, head: seq<Item>, calls: seq<Item>)
    requires HeadAnswers(o, status, head)
    requires |calls| == |o.calls| && forall i | 0 <= i < |o.calls| :: CallAnswers(o.calls[i], calls[i])
    ensures Answers(o, status, head + calls)
  {
    assert (head + calls)[..|head|] == head;
  }

  lemma BuildOutputAnswers(o: Outcome, ids: ItemIds, newId: nat)
    ensures Answers(o, ResponseStatus(o.reason), BuildOutput(o, ids, newId))
  {
    HeadOutputAnswers(o, ids.reasoning, ids.message, newId);
    JoinAnswers(o, ResponseStatus(o.reason), HeadOutput(o, ids.reasoning, ids.message, newId),
                CallOutput(o.calls, ids.calls, newId + 2));
  }

  /** A stream is lost once its first item is a message although the output starts with reasoning. */
  ghost predicate Lost(c: Option<Client>) {
    c.None? || (c.value.slots != [] && c.value.slots[0].start.Message?)
  }

  ghost predicate At(c: Option<Client>, next: nat, slots: seq<Slot>) {
    c == Some(Client(next, slots, false))
  }

  lemma StepKeepsLost(log: seq<Event>, e: Event)
    ensures Follow(log + [e]) == Step(Follow(log), e)
    ensures Lost(Follow(log)) ==> Lost(Follow(log + [e]))
  {
    FollowAppend(log, e);
  }

  /** One of the two streamed items: its id, output index and text so far. */
  datatype Track = Idle | Live(id: nat, index: nat, text: string) | Closed(id: nat, index: nat, text: string, item: Item) {
    function Text(): string { if Idle? then "" else text }

    function Grow(more: string): Track {
      match this
      case Idle => Idle
      case Live(id, index, text) => Live(id, index, text + more)
      case Closed(id, index, text, item) => Closed(id, index, text + more, item)
    }
  }

  function ReasoningSlots(r: Track): seq<Slot> {
    match r
    case Idle => []
    case Live(id, _, text) => [Slot(Reasoning(id, "in_progress", []), text, Open)]
    case Closed(id, _, text, item) => [Slot(Reasoning(id, "in_progress", []), text, Finished(item))]
  }

  function MessageSlots(m: Track): seq<Slot> {
    match m
    case Idle => []
    case Live(id, _, text) => [Slot(Message(id, "in_progress", []), text, Open)]
    case Closed(id, _, text, item) => [Slot(Message(id, "in_progress", []), text, Finished(item))]
  }

  /** What the client should hold while the encoder is at `r` and `m`. */
  ghost predicate InStep(c: Option<Client>, sequence: nat, r: Track, m: Track) {
    && At(c, sequence, ReasoningSlots(r) + MessageSlots(m)) && sequence >= 2
    && (!r.Idle? ==> r.index == 0)
    && (!m.Idle? ==> m.index == |ReasoningSlots(r)| && !r.Live?)
  }

  lemma ReasoningAlone(r: Track)
    ensures ReasoningSlots(r) + MessageSlots(Idle) == ReasoningSlots(r)
  {
  }

  lemma ReasoningClosed(r: Track, c: Track)
    requires r.Live? && c.Closed? && c.id == r.id && c.text == r.text
    ensures var all := ReasoningSlots(r); all[0 := all[0].(phase := Finished(c.item))] == ReasoningSlots(c)
  {
  }

  lemma ReasoningOpened(r: Track)
    requires r.Live? && r.text == ""
    ensures [] + [Slot(Reasoning(r.id, "in_progress", []), "", Open)] == ReasoningSlots(r) + MessageSlots(Idle)
  {
  }

  lemma MessageClosed(r: seq<Slot>, m: Track, c: Track)
    requires m.Live? && c.Closed? && c.id == m.id && c.text == m.text
    ensures var all := r + MessageSlots(m);
            all[|r|] == MessageSlots(m)[0]
            && all[|r| := all[|r|].(phase := Finished(c.item))] == r + MessageSlots(c)
  {
  }

  lemma ReasoningGrown(r: Track, text: string)
    requires r.Live?
    ensures var all := ReasoningSlots(r); all[0 := all[0].(text := all[0].text + text)] == ReasoningSlots(r.Grow(text))
  {
  }

  lemma MessageGrown(r: seq<Slot>, m: Track, text: string)
    requires m.Live?
    ensures var all := r + MessageSlots(m);
            all[|r|] == MessageSlots(m)[0]
            && all[|r| := all[|r|].(text := all[|r|].text + text)] == r + MessageSlots(m.Grow(text))
  {
  }

  lemma LastSlot(slots: seq<Slot>, s: Slot, text: string, item: Item)
    requires s.text == "" && s.phase == Open
    ensures var all, n := slots + [s], |slots|; var written := s.(text := text);
            && all[n] == s && all[n := s.(text := "" + text)] == slots + [written]
            && (slots + [written])[n := written.(phase := Finished(item))] == slots + [written.(phase := Finished(item))]
            && forall output | AllFinished(slots, output) ::
                 AllFinished(slots + [written.(phase := Finished(item))], output + [item])
  {
    assert "" + text == text;
  }

  /** Every item announced so far is done, and `output` lists them. */
  ghost predicate Settled(c: Option<Client>, sequence: nat, output: seq<Item>) {
    && c.Some? && !c.value.closed && c.value.next == sequence && sequence >= 2
    && AllFinished(c.value.slots, output)
  }

  class ResponsesEventStream {
    var sequence: nat
    var nextOutputIndex: nat
    var started: bool
    var finishBuilt: bool
    var terminalEmitted: bool
    var reasoning: Track
    var message: Track
    var callIds: seq<nat>
    /** Stands for the random id generator. */
    var nextId: nat
    /** The events handed to the connection so far, and the client that has seen them. */
    var log: seq<Event>
    ghost var client: Option<Client>

    /** The client is the one that has followed the log. */
    ghost predicate Logged()
      reads this
    {
      forall events {:trigger Follow(events)} | events == log :: client == Follow(events)
    }

    ghost predicate InOrder()
      reads this
    {
      && InStep(client, sequence, reasoning, message)
      && nextOutputIndex == |ReasoningSlots(reasoning)| + |MessageSlots(message)|
    }

    /** Between callbacks, before `Finish`. */
    ghost predicate Streaming()
      reads this
    {
      && started && !finishBuilt && !terminalEmitted && Logged() && callIds == []
      && !message.Closed? && (message.Live? ==> message.text != "")
    }

    /** Between callbacks, as long as no reasoning text has come after content text. */
    ghost predicate Steady()
      reads this
    {
      && InOrder()
      && (reasoning.Closed? ==> !message.Idle? && reasoning.item == Reasoning(reasoning.id, "completed", [reasoning.text]))
      && (!reasoning.Idle? ==> reasoning.text != "")
    }

    constructor ()
      ensures !started && !finishBuilt && !terminalEmitted && Logged() && log == []
      ensures sequence == nextOutputIndex == 0 && reasoning == message == Idle && callIds == []
    {
      sequence, nextOutputIndex, nextId, callIds := 0, 0, 0, [];
      started, finishBuilt, terminalEmitted, reasoning, message := false, false, false, Idle, Idle;
      log, client := [], Some(Client(0, [], false));
    }

    method Emit(body: Body)
      requires Logged()
      modifies `sequence, `log, `client
      ensures Logged() && sequence == old(sequence) + 1
      ensures client == Step(old(client), Event(old(sequence), body))
      ensures log == old(log) + [Event(old(sequence), body)]
      ensures old(Lost(client)) ==> Lost(client)
    {
      var e := Event(sequence, body);
      StepKeepsLost(log, e);
      log := log + [e];
      client := Follow(log);
      sequence := sequence + 1;
    }

    /** `output_item.added` and `content_part.added` of a new item. */
    method Announce(index: nat, item: Item, ghost slots: seq<Slot>)
      requires Logged() && item.Started()
      modifies `sequence, `log, `client
      ensures Logged() && sequence == old(sequence) + 2
      ensures old(Lost(client)) ==> Lost(client)
      ensures old(At(client, sequence, slots) && sequence >= 2 && index == |slots|) ==>
              At(client, sequence, slots + [Slot(item, "", Open)])
    {
      Emit(ItemAdded(index, item));
      Emit(PartAdded(item.id, index, ""));
    }

    /** The closing events of an item; a function call has no content part to close. */
    method Complete(index: nat, text: string, item: Item, ghost slots: seq<Slot>)
      requires Logged()
      modifies `sequence, `log, `client
      ensures Logged() && sequence > old(sequence)
      ensures old(Lost(client)) ==> Lost(client)
      ensures old(At(client, sequence, slots)) && index < |slots| && slots[index].phase == Open
              && slots[index].text == text && item.Completes(slots[index].start, text) ==>
              At(client, sequence, slots[index := slots[index].(phase := Finished(item))])
    {
      Emit(TextDone(item.id, index, text));
      if !item.FunctionCall? { Emit(PartDone(item.id, index, text)); }
      Emit(ItemDone(index, item));
      ghost var done := Finished(item);
      assert index < |slots| ==>
          slots[index := slots[index].(phase := Written)][index := slots[index].(phase := done)]
          == slots[index := slots[index].(phase := done)];
    }

    method Append(index: nat, id: nat, text: string, ghost slots: seq<Slot>)
      requires Logged()
      modifies `sequence, `log, `client
      ensures Logged() && sequence == old(sequence) + 1
      ensures old(Lost(client)) ==> Lost(client)
      ensures old(At(client, sequence, slots)) && index < |slots| && slots[index].start.id == id ==>
              if slots[index].phase == Open
              then At(client, sequence, slots[index := slots[index].(text := slots[index].text + text)])
              else Lost(client)
    {
      Emit(Delta(id, index, text));
    }

    /** `ok` is false where the source throws `logic_error`; here and below. */
    method Start() returns (ok: bool)
      requires Logged() && callIds == [] && !finishBuilt && !terminalEmitted
      requires !started ==> log == [] && sequence == nextOutputIndex == 0 && reasoning == message == Idle
      modifies `started, `sequence, `log, `client
      ensures ok <==> !old(started)
      ensures ok ==> Streaming() && Steady() && reasoning == message == Idle
    {
      if started { return false; }
      started := true;
      assert client == Follow(log);
      ReasoningAlone(Idle);
      Emit(Created);
      Emit(InProgress);
      return true;
    }

    /** `ensure_reasoning` */
    method EnsureReasoning()
      requires Logged()
      modifies `sequence, `log, `client, `reasoning, `nextOutputIndex, `nextId
      ensures Logged()
      ensures !reasoning.Idle? && (!old(reasoning).Idle? ==> reasoning == old(reasoning))
      ensures old(reasoning).Idle? ==> reasoning.Live? && reasoning.text == ""
      ensures old(Lost(client)) ==> Lost(client)
      ensures old(InOrder() && (message.Idle? || !reasoning.Idle?)) ==> InOrder()
    {
      if !reasoning.Idle? { return; }
      var item := Reasoning(nextId, "in_progress", []);
      reasoning := Live(nextId, nextOutputIndex, "");
      nextId, nextOutputIndex := nextId + 1, nextOutputIndex + 1;
      ReasoningAlone(Idle);
      ReasoningOpened(reasoning);
      Announce(reasoning.index, item, []);
    }

    /** `close_reasoning` */
    method CloseReasoning(finalText: string, status: string)
      requires Logged()
      modifies `sequence, `log, `client, `reasoning
      ensures Logged() && !reasoning.Live?
      ensures !old(reasoning).Live? ==> reasoning == old(reasoning)
      ensures old(reasoning).Live? ==>
              reasoning.Closed? && reasoning.text == finalText && reasoning.item == Reasoning(reasoning.id, status, [finalText])
      ensures old(Lost(client)) ==> Lost(client)
      ensures old(InOrder()) && (old(reasoning).Live? ==> finalText == old(reasoning).text) ==> InOrder()
    {
      if !reasoning.Live? { return; }
      var item := Reasoning(reasoning.id, status, [finalText]);
      ghost var live := reasoning;
      reasoning := Closed(reasoning.id, reasoning.index, finalText, item);
      ReasoningAlone(live);
      ReasoningAlone(reasoning);
      if live.text == finalText { ReasoningClosed(live, reasoning); }
      Complete(reasoning.index, finalText, item, ReasoningSlots(live));
    }

    /** `ensure_message` */
    method EnsureMessage()
      requires Logged()
      modifies `sequence, `log, `client, `message, `nextOutputIndex, `nextId
      ensures Logged()
      ensures !message.Idle? && (!old(message).Idle? ==> message == old(message))
      ensures old(message).Idle? ==> message.Live? && message.text == ""
      ensures old(Lost(client)) ==> Lost(client)
      ensures old(InOrder()) && !reasoning.Live? ==> InOrder()
    {
      if !message.Idle? { return; }
      var item := Message(nextId, "in_progress", []);
      ReasoningAlone(reasoning);
      message := Live(nextId, nextOutputIndex, "");
      nextId, nextOutputIndex := nextId + 1, nextOutputIndex + 1;
      Announce(message.index, item, ReasoningSlots(reasoning));
    }

    /** `close_message` */
    method CloseMessage(finalText: string, status: string)
      requires Logged()
      modifies `sequence, `log, `client, `message
      ensures Logged() && !message.Live?
      ensures !old(message).Live? ==> message == old(message)
      ensures old(message).Live? ==>
              message.Closed? && message.text == finalText && message.item == Message(message.id, status, [finalText])
      ensures old(Lost(client)) ==> Lost(client)
      ensures old(InOrder()) && (old(message).Live? ==> finalText == old(message).text) ==> InOrder()
    {
      if !message.Live? { return; }
      var item := Message(message.id, status, [finalText]);
      ghost var r, live := ReasoningSlots(reasoning), message;
      message := Closed(message.id, message.index, finalText, item);
      if live.text == finalText { MessageClosed(r, live, message); }
      Complete(message.index, finalText, item, r + MessageSlots(live));
    }

    method AppendReasoning(text: string)
      requires Logged() && !reasoning.Idle?
      modifies `sequence, `log, `client, `reasoning
      ensures Logged() && reasoning == old(reasoning).Grow(text)
      ensures old(Lost(client)) ==> Lost(client)
      ensures old(InOrder()) ==> if reasoning.Live? then InOrder() else Lost(client)
    {
      ghost var r, slots := reasoning, ReasoningSlots(reasoning) + MessageSlots(message);
      reasoning := reasoning.Grow(text);
      if r.Live? {
        ReasoningAlone(r);
        ReasoningAlone(reasoning);
        ReasoningGrown(r, text);
      }
      Append(reasoning.index, reasoning.id, text, slots);
    }

    method AppendMessage(text: string)
      requires Logged() && message.Live?
      modifies `sequence, `log, `client, `message
      ensures Logged() && message == old(message).Grow(text)
      ensures old(Lost(client)) ==> Lost(client)
      ensures old(InOrder()) ==> InOrder()
    {
      ghost var m, r := message, ReasoningSlots(reasoning);
      message := message.Grow(text);
      MessageGrown(r, m, text);
      Append(message.index, message.id, text, r + MessageSlots(m));
    }

    method ReasoningDelta(text: string) returns (ok: bool)
      requires !started || finishBuilt || Streaming()
      modifies this
      ensures ok <==> old(started && !finishBuilt)
      ensures !ok ==> unchanged(this)
      ensures ok ==> Streaming() && message == old(message) && reasoning.Text() == old(reasoning).Text() + text
      ensures ok && old(Lost(client)) ==> Lost(client)
      ensures ok && old(Steady()) ==> if text == "" || message.Idle? then Steady() else Lost(client)
    {
      if !started || finishBuilt { return false; }
      if text != "" {
        EnsureReasoning();
        AppendReasoning(text);
      }
      return true;
    }

    method ContentDelta(text: string) returns (ok: bool)
      requires !started || finishBuilt || Streaming()
      modifies this
      ensures ok <==> old(started && !finishBuilt)
      ensures !ok ==> unchanged(this)
      ensures ok ==> Streaming()
      ensures ok ==> message.Text() == old(message).Text() + text && reasoning.Text() == old(reasoning).Text()
      ensures ok && old(Lost(client)) ==> Lost(client)
      ensures ok && old(Steady()) ==> Steady()
    {
      if !started || finishBuilt { return false; }
      if text != "" {
        CloseReasoning(reasoning.Text(), "completed");
        EnsureMessage();
        AppendMessage(text);
      }
      return true;
    }

    // ---- Finishing ----

    /** The streamed text is the beginning of the outcome's. */
    ghost predicate Agrees(o: Outcome)
      reads this
    {
      && message.Text() <= o.text
      && (reasoning.Text() == o.reasoning || (reasoning.Idle? && message.Idle?))
    }

    method FinishReasoning(o: Outcome)
      requires Logged() && !message.Closed? && (message.Live? ==> message.text != "")
      modifies `sequence, `log, `client, `reasoning, `nextOutputIndex, `nextId
      ensures Logged()
      ensures old(Lost(client)) ==> Lost(client)
      ensures old(Steady() && Agrees(o)) ==>
              InOrder() && !reasoning.Live? && (reasoning.Idle? <==> o.reasoning == "")
              && (reasoning.Closed? ==> reasoning.item == Reasoning(reasoning.id, ReasoningStatus(o), [o.reasoning]))
    {
      if o.reasoning != "" && reasoning.Idle? {
        EnsureReasoning();
        AppendReasoning(o.reasoning);
      }
      CloseReasoning(o.reasoning, ReasoningStatus(o));
    }

    /** Sends the part of the outcome's text that was not streamed. */
    method AppendSuffix(text: string) returns (ok: bool)
      requires Logged() && message.Live?
      modifies `sequence, `log, `client, `message
      ensures ok <==> old(message).text <= text
      ensures ok ==> Logged() && message.Live? && message.text == text
      ensures ok && old(Lost(client)) ==> Lost(client)
      ensures ok && old(InOrder()) ==> InOrder()
    {
      if text == message.text { return true; }
      if !(message.text <= text) { return false; }
      var suffix := text[|message.text|..];
      assert message.text + suffix == text;
      AppendMessage(suffix);
      return true;
    }

    method FinishMessage(o: Outcome) returns (ok: bool)
      requires Logged() && !message.Closed? && (message.Live? ==> message.text != "")
      modifies `sequence, `log, `client, `message, `nextOutputIndex, `nextId
      ensures ok <==> (NeedsMessage(o) ==> old(message).Text() <= o.text)
      ensures ok ==> Logged()
      ensures ok && old(Lost(client)) ==> Lost(client)
      ensures ok && old(InOrder()) && !reasoning.Live? && old(message).Text() <= o.text ==>
              InOrder() && (message.Idle? <==> !NeedsMessage(o))
              && (!message.Idle? ==> message.Closed? && message.item == Message(message.id, ItemStatus(o.reason), [o.text]))
    {
      if !NeedsMessage(o) { return true; }
      EnsureMessage();
      ok := AppendSuffix(o.text);
      if ok { CloseMessage(o.text, ItemStatus(o.reason)); }
    }

    /** Announces a tool call and sends its arguments, if there are any. */
    method OpenCall(index: nat, start: Item, arguments: string, ghost slots: seq<Slot>)
      requires Logged() && start.Started()
      modifies `sequence, `log, `client
      ensures Logged() && sequence > old(sequence)
      ensures old(Lost(client)) ==> Lost(client)
      ensures old(At(client, sequence, slots) && sequence >= 2) && index == |slots| ==>
              At(client, sequence, slots + [Slot(start, arguments, Open)])
    {
      Emit(ItemAdded(index, start));
      LastSlot(slots, Slot(start, "", Open), arguments, start);
      if arguments != "" {
        Append(index, start.id, arguments, slots + [Slot(start, "", Open)]);
      }
    }

    /** The events of one tool call. */
    method EmitCall(call: Call, ghost output: seq<Item>)
      requires Logged()
      modifies `sequence, `log, `client, `callIds, `nextOutputIndex, `nextId
      ensures Logged() && callIds == old(callIds) + [old(nextId)] && nextOutputIndex == old(nextOutputIndex) + 1
      ensures old(Lost(client)) ==> Lost(client)
      ensures old(Settled(client, sequence, output) && nextOutputIndex == |output|) ==>
              Settled(client, sequence, output + [CallItem(call, old(nextId))])
    {
      var id, index := nextId, nextOutputIndex;
      nextId, callIds, nextOutputIndex := nextId + 1, callIds + [id], nextOutputIndex + 1;
      var start := FunctionCall(id, "in_progress", call.id, call.name, "");
      var item := CallItem(call, id);
      ghost var slots := if client.Some? then client.value.slots else [];
      LastSlot(slots, Slot(start, "", Open), call.arguments, item);
      OpenCall(index, start, call.arguments, slots);
      Complete(index, call.arguments, item, slots + [Slot(start, call.arguments, Open)]);
    }

    method EmitCalls(calls: seq<Call>, ghost head: seq<Item>)
      requires Logged() && callIds == []
      modifies `sequence, `log, `client, `callIds, `nextOutputIndex, `nextId
      ensures Logged() && |callIds| == |calls|
      ensures old(Lost(client)) ==> Lost(client)
      ensures old(Settled(client, sequence, head) && nextOutputIndex == |head|) ==>
              forall newId :: Settled(client, sequence, head + CallOutput(calls, callIds, newId))
    {
      for i := 0 to |calls|
        invariant Logged() && |callIds| == i
        invariant old(Lost(client)) ==> Lost(client)
        invariant nextOutputIndex == old(nextOutputIndex) + i
        invariant old(Settled(client, sequence, head) && nextOutputIndex == |head|) ==>
            Settled(client, sequence, head + CallOutput(calls[..i], callIds, 0))
      {
        ghost var before := CallOutput(calls[..i], callIds, 0);
        EmitCall(calls[i], head + before);
        assert CallOutput(calls[..i + 1], callIds, 0) == before + [CallItem(calls[i], callIds[i])];
        assert head + before + [CallItem(calls[i], callIds[i])] == head + CallOutput(calls[..i + 1], callIds, 0);
      }
      assert calls[..|calls|] == calls;
      assert forall newId :: CallOutput(calls, callIds, newId) == CallOutput(calls, callIds, 0);
    }

    function ReasoningId(): Option<nat>
      reads this
    {
      if reasoning.Idle? then None else Some(reasoning.id)
    }

    function MessageId(): Option<nat>
      reads this
    {
      if message.Idle? then None else Some(message.id)
    }

    method FinishItems(o: Outcome) returns (ok: bool)
      requires Logged() && !message.Closed? && (message.Live? ==> message.text != "")
      modifies `sequence, `log, `client, `reasoning, `message, `nextOutputIndex, `nextId
      ensures ok <==> (NeedsMessage(o) ==> old(message).Text() <= o.text)
      ensures ok ==> Logged()
      ensures ok && old(Lost(client)) ==> Lost(client)
      ensures ok && old(Steady() && Agrees(o)) ==>
              var head := HeadOutput(o, ReasoningId(), MessageId(), 0);
              && Settled(client, sequence, head) && nextOutputIndex == |head|
              && forall newId :: HeadOutput(o, ReasoningId(), MessageId(), newId) == head
    {
      FinishReasoning(o);
      ok := FinishMessage(o);
      if ok && old(Steady() && Agrees(o)) {
        HeadSettled(o, client, sequence, reasoning, message);
      }
    }

    /** The items and the calls. */
    method FinishAll(o: Outcome) returns (ok: bool)
      requires Logged() && !message.Closed? && (message.Live? ==> message.text != "") && callIds == []
      modifies `sequence, `log, `client, `reasoning, `message, `nextOutputIndex, `nextId, `callIds
      ensures ok <==> (NeedsMessage(o) ==> old(message).Text() <= o.text)
      ensures ok ==> Logged()
      ensures ok && old(Lost(client)) ==> Lost(client)
      ensures ok && old(Steady() && Agrees(o)) ==>
                forall newId :: Settled(client, sequence, BuildOutput(o, ItemIds(ReasoningId(), MessageId(), callIds), newId))
    {
      ok := FinishItems(o);
      if ok { EmitCalls(o.calls, HeadOutput(o, ReasoningId(), MessageId(), 0)); }
    }

    /** Everything before the terminal event; the result is the response's `output`. */
    method Finish(o: Outcome) returns (r: Option<seq<Item>>)
      requires !started || finishBuilt || Streaming()
      modifies this
      ensures r.None? <==> old(!started || finishBuilt) || (NeedsMessage(o) && !(old(message).Text() <= o.text))
      ensures r.Some? ==> finishBuilt && !terminalEmitted && Logged()
      ensures r.Some? ==> r.value == BuildOutput(o, ItemIds(ReasoningId(), MessageId(), callIds), nextId)
      ensures r.Some? ==> Answers(o, ResponseStatus(o.reason), r.value)
      ensures r.Some? && old(Lost(client)) ==> Lost(client)
      ensures r.Some? && old(Steady() && Agrees(o)) ==> Settled(client, sequence, r.value)
    {
      if !started || finishBuilt { return None; }
      finishBuilt := true;
      var ok := FinishAll(o);
      if !ok { return None; }
      BuildOutputAnswers(o, ItemIds(ReasoningId(), MessageId(), callIds), nextId);
      return Some(BuildOutput(o, ItemIds(ReasoningId(), MessageId(), callIds), nextId));
    }

    method Terminal(status: string, output: seq<Item>) returns (ok: bool)
      requires Logged()
      modifies this
      ensures ok <==> old(finishBuilt && !terminalEmitted)
      ensures !ok ==> unchanged(this)
      ensures ok ==> terminalEmitted && log != [] && log[|log| - 1].body == Body.Terminal(status, output)
      ensures ok && old(Settled(client, sequence, output)) ==> Conforms(log)
      ensures ok && old(Lost(client)) && output != [] && output[0].Reasoning? ==> Follow(log).None?
    {
      if !finishBuilt || terminalEmitted { return false; }
      terminalEmitted := true;
      if client.Some? { FinishedCompletes(log); }
      Emit(Body.Terminal(status, output));
      return true;
    }
  }

  lemma HeadSettled(o: Outcome, c: Option<Client>, sequence: nat, r: Track, m: Track)
    requires InStep(c, sequence, r, m) && !r.Live?
    requires r.Idle? <==> o.reasoning == ""
    requires r.Closed? ==> r.item == Reasoning(r.id, ReasoningStatus(o), [o.reasoning])
    requires m.Idle? <==> !NeedsMessage(o)
    requires !m.Idle? ==> m.Closed? && m.item == Message(m.id, ItemStatus(o.reason), [o.text])
    ensures var rid, mid := if r.Idle? then None else Some(r.id), if m.Idle? then None else Some(m.id);
            var head := HeadOutput(o, rid, mid, 0);
            && Settled(c, sequence, head) && |head| == |ReasoningSlots(r)| + |MessageSlots(m)|
            && forall newId :: HeadOutput(o, rid, mid, newId) == head
  {
  }

  /** The stream has been given the callbacks `done`. */
  ghost predicate Given(stream: ResponsesEventStream, done: seq<G.Delta>)
    reads stream
  {
    && stream.Streaming()
    && stream.reasoning.Text() == G.ReasoningText(done) && stream.message.Text() == G.ContentText(done)
    && (if G.ReasoningFirst(done) then stream.Steady() else Lost(stream.client))
  }

  method Callback(stream: ResponsesEventStream, ghost done: seq<G.Delta>, d: G.Delta)
    requires Given(stream, done)
    modifies stream
    ensures Given(stream, done + [d])
  {
    G.Append(done, d);
    G.TextHasContent(done);
    var ok;
    if d.Reasoning? {
      ok := stream.ReasoningDelta(d.text);
    } else {
      ok := stream.ContentDelta(d.text);
    }
    assert ok;
  }

  /** Passes the callbacks on to a started stream. */
  method Callbacks(stream: ResponsesEventStream, callbacks: seq<G.Delta>)
    requires Given(stream, [])
    modifies stream
    ensures Given(stream, callbacks)
  {
    ghost var done: seq<G.Delta> := [];
    for i := 0 to |callbacks|
      invariant done == callbacks[..i] && Given(stream, done)
    {
      Callback(stream, done, callbacks[i]);
      done := done + [callbacks[i]];
    }
    assert callbacks[..|callbacks|] == callbacks;
  }

  /** The end of a stream that has been given all callbacks. */
  method Conclude(stream: ResponsesEventStream, ghost callbacks: seq<G.Delta>, o: Outcome) returns (log: seq<Event>)
    requires Given(stream, callbacks) && G.ReasoningText(callbacks) == o.reasoning && G.ContentText(callbacks) == o.text
    modifies stream
    ensures Conforms(log) <==> G.ReasoningFirst(callbacks)
    ensures log != [] && log[|log| - 1].body.Terminal?
    ensures var last := log[|log| - 1].body; Answers(o, last.status, last.output)
  {
    if !G.ReasoningFirst(callbacks) { G.LateHasReasoning(callbacks); }
    var output := stream.Finish(o);
    var ok := stream.Terminal(ResponseStatus(o.reason), output.value);
    assert ok;
    log := stream.log;
  }

  /** A whole successful stream. No step throws, the client accepts the stream exactly when no reasoning text came after
      content text, and the terminal event carries the answer. */
  method RunStream(callbacks: seq<G.Delta>, o: Outcome) returns (log: seq<Event>)
    requires G.ReasoningText(callbacks) == o.reasoning && G.ContentText(callbacks) == o.text
    ensures Conforms(log) <==> G.ReasoningFirst(callbacks)
    ensures log != [] && log[|log| - 1].body.Terminal?
    ensures var last := log[|log| - 1].body; Answers(o, last.status, last.output)
  {
    var stream := new ResponsesEventStream();
    var ok := stream.Start();
    assert ok;
    Callbacks(stream, callbacks);
    log := Conclude(stream, callbacks, o);
  }

  /** From the engine's deltas to the wire: the service's filter in front of the encoder. The log conforms exactly when no
      reasoning comes after content that had been shown, and ends in the built response, whose calls are the parser's.
      `render` writes a call. */
  method Serve(g: P.Tags, deltas: seq<G.Delta>, toolCapable: bool, maxName: nat, reason: FinishReason, render: P.ToolCall -> Call)
    returns (log: seq<Event>, o: Outcome)
    ensures o.text == if toolCapable then P.Parse(g, G.ContentText(deltas), maxName).content else G.ContentText(deltas)
    ensures o.reasoning == G.ReasoningText(deltas)
    ensures var calls := if toolCapable then P.Parse(g, G.ContentText(deltas), maxName).toolCalls else [];
            |o.calls| == |calls| && forall i | 0 <= i < |calls| :: o.calls[i] == render(calls[i])
    ensures Conforms(log) <==> !G.Late(g, toolCapable, deltas)
    ensures log != [] && log[|log| - 1].body.Terminal?
    ensures var last := log[|log| - 1].body; Answers(o, last.status, last.output)
  {
    var outcome, callbacks := G.Run(g, deltas, toolCapable, maxName, true, true);
    o := Outcome(outcome.text, outcome.reasoning, Rendered(outcome.toolCalls, render), reason);
    log := RunStream(callbacks, o);
  }

  function Rendered(calls: seq<P.ToolCall>, render: P.ToolCall -> Call): seq<Call> {
    seq(|calls|, i requires 0 <= i < |calls| => render(calls[i]))
  }
}

/** The events of a Responses stream and a client that checks them one by one. */
module ResponsesEvents {
  import opened Wrappers
  import opened Text

  /** The items of a response, as they appear in events and in the terminal `output`. */
  datatype Item =
    | Reasoning(id: nat, status: string, content: seq<string>)
    | Message(id: nat, status: string, content: seq<string>)
    | FunctionCall(id: nat, status: string, callId: string, name: string, arguments: string)
  {
    predicate Started() {
      status == "in_progress" && if FunctionCall? then arguments == "" else content == []
    }

    /** The finished form of `start` that carries `text`. */
    predicate Completes(start: Item, text: string) {
      match this
      case Reasoning(id, _, content) => start.Reasoning? && id == start.id && content == [text]
      case Message(id, _, content) => start.Message? && id == start.id && content == [text]
      case FunctionCall(id, _, callId, name, arguments) =>
        start.FunctionCall? && id == start.id && callId == start.callId && name == start.name && arguments == text
    }
  }

  datatype Body =
    | Created
    | InProgress
    | ItemAdded(index: nat, item: Item)
    | PartAdded(id: nat, index: nat, text: string)
    | Delta(id: nat, index: nat, text: string)
    | TextDone(id: nat, index: nat, text: string)
    | PartDone(id: nat, index: nat, text: string)
    | ItemDone(index: nat, item: Item)
    | Terminal(status: string, output: seq<Item>)

  datatype Event = Event(sequence: nat, body: Body)

  /** What a client knows about one output item. */
  datatype Phase = Open | Written | Finished(item: Item)
  datatype Slot = Slot(start: Item, text: string, phase: Phase)
  datatype Client = Client(next: nat, slots: seq<Slot>, closed: bool)

  predicate Names(c: Client, id: nat, index: nat, phase: Phase) {
    index < |c.slots| && c.slots[index].start.id == id && c.slots[index].phase == phase
  }

  predicate AllFinished(slots: seq<Slot>, output: seq<Item>) {
    |output| == |slots| && forall i | 0 <= i < |slots| :: slots[i].phase == Finished(output[i])
  }

  /** Whether the client accepts the body of the next event. */
  predicate Accepts(c: Client, b: Body) {
    match b
    case Created => c.next == 0
    case InProgress => c.next == 1
    case ItemAdded(index, item) => c.next >= 2 && index == |c.slots| && item.Started()
    case PartAdded(id, index, text) => Names(c, id, index, Open) && text == "" && c.slots[index].text == ""
    case Delta(id, index, _) => Names(c, id, index, Open)
    case TextDone(id, index, text) => Names(c, id, index, Open) && text == c.slots[index].text
    case PartDone(id, index, text) => Names(c, id, index, Written) && text == c.slots[index].text
    case ItemDone(index, item) =>
      index < |c.slots| && c.slots[index].phase.Written? && item.Completes(c.slots[index].start, c.slots[index].text)
    case Terminal(_, output) => AllFinished(c.slots, output)
  }

  function Take(c: Client, b: Body): Client
    requires Accepts(c, b)
  {
    var n := c.(next := c.next + 1);
    match b
    case Created => n
    case InProgress => n
    case ItemAdded(_, item) => n.(slots := c.slots + [Slot(item, "", Open)])
    case PartAdded(_, _, _) => n
    case Delta(_, i, text) => n.(slots := c.slots[i := c.slots[i].(text := c.slots[i].text + text)])
    case TextDone(_, i, _) => n.(slots := c.slots[i := c.slots[i].(phase := Written)])
    case PartDone(_, _, _) => n
    case ItemDone(i, item) => n.(slots := c.slots[i := c.slots[i].(phase := Finished(item))])
    case Terminal(_, _) => n.(closed := true)
  }

  function Step(c: Option<Client>, e: Event): Option<Client> {
    if c.Some? && !c.value.closed && e.sequence == c.value.next && Accepts(c.value, e.body)
    then Some(Take(c.value, e.body)) else None
  }

  /** The client after a whole stream, `None` once an event was not acceptable. */
  function Follow(log: seq<Event>): Option<Client> {
    if log == [] then Some(Client(0, [], false))
    else Step(Follow(log[..|log| - 1]), log[|log| - 1])
  }

  /** A stream that the client accepts up to and including the terminal event. */
  ghost predicate Conforms(log: seq<Event>) {
    Follow(log).Some? && Follow(log).value.closed
  }

  lemma FollowAppend(log: seq<Event>, e: Event)
    ensures Follow(log + [e]) == Step(Follow(log), e)
  {
    assert (log + [e])[..|log|] == log;
  }

  // ---- What acceptance says about the whole stream ----

  /** Sequence numbers are 0, 1, 2, ... */
  lemma {:induction false} SequenceNumbers(log: seq<Event>)
    requires Follow(log).Some?
    ensures Follow(log).value.next == |log|
    ensures forall i | 0 <= i < |log| :: log[i].sequence == i
  {
    if log != [] {
      SequenceNumbers(log[..|log| - 1]);
    }
  }

  function Times(log: seq<Event>, p: Event -> bool): nat {
    if log == [] then 0 else Times(log[..|log| - 1], p) + if p(log[|log| - 1]) then 1 else 0
  }

  function DeltaText(log: seq<Event>, index: nat): string {
    if log == [] then "" else
    var e := log[|log| - 1].body;
    DeltaText(log[..|log| - 1], index) + if e.Delta? && e.index == index then e.text else ""
  }

  /** The events of one item, counted: added once, done at most once, and its text is its deltas. */
  lemma {:induction false} ItemHistory(log: seq<Event>, k: nat)
    requires Follow(log).Some?
    ensures var slots := Follow(log).value.slots;
            && Times(log, (e: Event) => e.body.ItemAdded? && e.body.index == k) == (if k < |slots| then 1 else 0)
            && Times(log, (e: Event) => e.body.ItemDone? && e.body.index == k)
               == (if k < |slots| && slots[k].phase.Finished? then 1 else 0)
            && DeltaText(log, k) == (if k < |slots| then slots[k].text else "")
  {
    if log != [] {
      ItemHistory(log[..|log| - 1], k);
    }
  }

  lemma {:induction false} DoneItems(log: seq<Event>, i: nat)
    requires Follow(log).Some? && i < |log| && log[i].body.ItemDone?
    ensures var slots, k := Follow(log).value.slots, log[i].body.index;
            k < |slots| && slots[k].phase == Finished(log[i].body.item)
            && log[i].body.item.Completes(slots[k].start, slots[k].text)
  {
    if i < |log| - 1 {
      DoneItems(log[..|log| - 1], i);
    }
  }

  lemma TerminalIsLast(log: seq<Event>, i: nat)
    requires Follow(log).Some? && i < |log| && log[i].body.Terminal?
    ensures i == |log| - 1
  {
    if i < |log| - 1 {
      ClosedAfterTerminal(log[..|log| - 1], i);
    }
  }

  lemma {:induction false} ClosedAfterTerminal(log: seq<Event>, i: nat)
    requires Follow(log).Some? && i < |log| && log[i].body.Terminal?
    ensures Follow(log).value.closed
  {
    if i < |log| - 1 {
      ClosedAfterTerminal(log[..|log| - 1], i);
    }
  }

  /** In a conforming stream the single terminal event comes last, every output position is added
      once and done once, its deltas join to its text, and its done item is the terminal item. */
  lemma ConformingStream(log: seq<Event>, k: nat)
    requires Conforms(log)
    ensures log != [] && log[|log| - 1].body.Terminal?
    ensures forall i | 0 <= i < |log| && log[i].body.Terminal? :: i == |log| - 1
    ensures var output := log[|log| - 1].body.output;
            && Times(log, (e: Event) => e.body.ItemAdded? && e.body.index == k) == (if k < |output| then 1 else 0)
            && Times(log, (e: Event) => e.body.ItemDone? && e.body.index == k) == (if k < |output| then 1 else 0)
            && (forall i | 0 <= i < |log| && log[i].body.ItemDone? ::
                  log[i].body.index < |output| && output[log[i].body.index] == log[i].body.item)
            && (k < |output| ==> output[k].Completes(Follow(log).value.slots[k].start, DeltaText(log, k)))
  {
    ItemHistory(log, k);
    forall i | 0 <= i < |log| && log[i].body.Terminal? {
      TerminalIsLast(log, i);
    }
    forall i | 0 <= i < |log| && log[i].body.ItemDone? {
      DoneItems(log, i);
    }
    FinishedCompletes(log);
  }

  lemma {:induction false} FinishedCompletes(log: seq<Event>)
    requires Follow(log).Some?
    ensures forall s | s in Follow(log).value.slots && s.phase.Finished? :: s.phase.item.Completes(s.start, s.text)
  {
    if log != [] {
      FinishedCompletes(log[..|log| - 1]);
    }
  }
}

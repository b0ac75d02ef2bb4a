/** The content-block machine of the Anthropic message stream. */
module AnthropicStream {
  import opened Wrappers
  import opened Text
  import G = GenerationService
  import P = ToolCallParser

  datatype Kind = Thinking | Plain | ToolUse(name: string)
  datatype Event =
    | MessageStart
    | BlockStart(index: nat, kind: Kind)
    | BlockDelta(index: nat, text: string)
    | BlockStop(index: nat)
    | MessageDelta
    | MessageStop

  datatype Block = Block(kind: Kind, text: string, open: bool)
  datatype Phase = Fresh | Running | Ending | Closed

  /** A client: its blocks with the text received for each, and whether two blocks were ever open at once. */
  datatype Client = Client(phase: Phase, blocks: seq<Block>, overlap: bool)

  ghost predicate SomeOpen(blocks: seq<Block>) { exists i :: 0 <= i < |blocks| && blocks[i].open }

  ghost predicate Accepts(c: Client, e: Event) {
    match e
    case MessageStart => c.phase == Fresh
    case BlockStart(index, _) => c.phase == Running && index == |c.blocks|
    case BlockDelta(index, _) => c.phase == Running && index < |c.blocks| && c.blocks[index].open
    case BlockStop(index) => c.phase == Running && index < |c.blocks| && c.blocks[index].open
    case MessageDelta => c.phase == Running && !SomeOpen(c.blocks)
    case MessageStop => c.phase == Ending
  }

  function Extended(blocks: seq<Block>, i: nat, text: string): seq<Block>
    requires i < |blocks|
  {
    blocks[i := blocks[i].(text := blocks[i].text + text)]
  }

  ghost function Take(c: Client, e: Event): Client
    requires Accepts(c, e)
  {
    match e
    case MessageStart => c.(phase := Running)
    case BlockStart(_, kind) =>
      c.(blocks := c.blocks + [Block(kind, "", true)], overlap := c.overlap || SomeOpen(c.blocks))
    case BlockDelta(i, text) => c.(blocks := Extended(c.blocks, i, text))
    case BlockStop(i) => c.(blocks := c.blocks[i := c.blocks[i].(open := false)])
    case MessageDelta => c.(phase := Ending)
    case MessageStop => c.(phase := Closed)
  }

  ghost function Step(c: Option<Client>, e: Event): Option<Client> {
    if c.Some? && Accepts(c.value, e) then Some(Take(c.value, e)) else None
  }

  ghost function Follow(log: seq<Event>): Option<Client> {
    if log == [] then Some(Client(Fresh, [], false)) else Step(Follow(log[..|log| - 1]), log[|log| - 1])
  }

  ghost function Starts(log: seq<Event>): seq<nat> {
    if log == [] then [] else
    var e := log[|log| - 1];
    Starts(log[..|log| - 1]) + if e.BlockStart? then [e.index] else []
  }

  ghost function Stops(log: seq<Event>, index: nat): nat {
    if log == [] then 0 else
    Stops(log[..|log| - 1], index) + if log[|log| - 1] == BlockStop(index) then 1 else 0
  }

  /** In an accepted stream, blocks are numbered 0, 1, 2, ... in start order and a block is stopped
      exactly when the client holds it closed, once. */
  lemma {:induction false} BlockHistory(log: seq<Event>, k: nat)
    requires Follow(log).Some?
    ensures var blocks := Follow(log).value.blocks;
            && Starts(log) == seq(|blocks|, i => i)
            && Stops(log, k) == (if k < |blocks| && !blocks[k].open then 1 else 0)
  {
    if log != [] {
      BlockHistory(log[..|log| - 1], k);
    }
  }

  /** A stream that is ending has no open block. */
  lemma {:induction false} EndedHasNoneOpen(log: seq<Event>)
    requires Follow(log).Some? && (Follow(log).value.phase == Ending || Follow(log).value.phase == Closed)
    ensures !SomeOpen(Follow(log).value.blocks)
  {
    var front := Follow(log[..|log| - 1]).value;
    if front.phase == Ending { EndedHasNoneOpen(log[..|log| - 1]); }
  }

  /** Blocks are numbered 0, 1, 2, ... in start order, and each of them, and nothing else, is stopped exactly once. */
  ghost predicate EachStoppedOnce(log: seq<Event>) {
    && (forall i | 0 <= i < |Starts(log)| :: Starts(log)[i] == i)
    && (forall k: nat :: Stops(log, k) == if k < |Starts(log)| then 1 else 0)
  }

  lemma StoppedOnce(log: seq<Event>)
    requires Follow(log).Some? && Follow(log).value.phase == Closed
    ensures EachStoppedOnce(log)
  {
    EndedHasNoneOpen(log);
    BlockHistory(log, 0);
    forall k: nat ensures Stops(log, k) == if k < |Starts(log)| then 1 else 0 { BlockHistory(log, k); }
  }

  // ---- What the blocks say ----

  /** The texts of all blocks of a kind, in order. */
  function Joined(blocks: seq<Block>, kind: Kind): string {
    if blocks == [] then "" else
    var last := blocks[|blocks| - 1];
    Joined(blocks[..|blocks| - 1], kind) + if last.kind == kind then last.text else ""
  }

  /** Block `i` is open and the last of its kind. */
  ghost predicate OpenAt(blocks: seq<Block>, i: nat, kind: Kind) {
    i < |blocks| && blocks[i].kind == kind && blocks[i].open && forall j | i < j < |blocks| :: blocks[j].kind != kind
  }

  lemma {:induction false} JoinedAway(blocks: seq<Block>, i: nat, text: string, kind: Kind)
    requires i < |blocks| && blocks[i].kind != kind
    ensures Joined(Extended(blocks, i, text), kind) == Joined(blocks, kind)
  {
    var front := blocks[..|blocks| - 1];
    if i < |front| {
      JoinedAway(front, i, text, kind);
      assert Extended(blocks, i, text)[..|front|] == Extended(front, i, text);
    } else {
      assert Extended(blocks, i, text)[..|front|] == front;
    }
  }

  lemma {:induction false} JoinedMore(blocks: seq<Block>, i: nat, text: string)
    requires i < |blocks| && forall j | i < j < |blocks| :: blocks[j].kind != blocks[i].kind
    ensures Joined(Extended(blocks, i, text), blocks[i].kind) == Joined(blocks, blocks[i].kind) + text
  {
    var front := blocks[..|blocks| - 1];
    if i < |front| {
      JoinedMore(front, i, text);
      assert Extended(blocks, i, text)[..|front|] == Extended(front, i, text);
    } else {
      assert Extended(blocks, i, text)[..|front|] == front;
    }
  }

  lemma JoinedOne(blocks: seq<Block>, b: Block, kind: Kind)
    ensures Joined(blocks + [b], kind) == Joined(blocks, kind) + if b.kind == kind then b.text else ""
  {
    assert (blocks + [b])[..|blocks|] == blocks;
  }

  function AllClosed(blocks: seq<Block>): (r: seq<Block>)
    ensures |r| == |blocks|
  {
    seq(|blocks|, i requires 0 <= i < |blocks| => blocks[i].(open := false))
  }

  lemma {:induction false} JoinedClosed(blocks: seq<Block>, kind: Kind)
    ensures Joined(AllClosed(blocks), kind) == Joined(blocks, kind)
  {
    if blocks != [] {
      JoinedClosed(blocks[..|blocks| - 1], kind);
      assert AllClosed(blocks)[..|blocks| - 1] == AllClosed(blocks[..|blocks| - 1]);
    }
  }

  /** A call as it is sent: its name and its rendered arguments. */
  datatype Use = Use(name: string, arguments: string)

  function Uses(calls: seq<P.ToolCall>, render: P.ToolCall -> string): (r: seq<Use>)
    ensures |r| == |calls|
  {
    seq(|calls|, i requires 0 <= i < |calls| => Use(calls[i].name, render(calls[i])))
  }

  function CallBlocks(calls: seq<Use>): (r: seq<Block>)
    ensures |r| == |calls|
  {
    seq(|calls|, i requires 0 <= i < |calls| => Block(ToolUse(calls[i].name), calls[i].arguments, false))
  }

  /** Thinking and text, none of it empty. */
  ghost predicate Spoken(blocks: seq<Block>) {
    forall i | 0 <= i < |blocks| :: !blocks[i].kind.ToolUse? && blocks[i].text != ""
  }

  /** The same, except that block `i` may be empty. */
  ghost predicate SpokenBut(blocks: seq<Block>, i: nat) {
    forall j | 0 <= j < |blocks| :: !blocks[j].kind.ToolUse? && (j != i ==> blocks[j].text != "")
  }

  lemma SaidMore(blocks: seq<Block>, i: nat, kind: Kind, text: string)
    requires OpenAt(blocks, i, kind)
    ensures var more := Extended(blocks, i, text);
            && Joined(more, Thinking) == Joined(blocks, Thinking) + (if kind == Thinking then text else "")
            && Joined(more, Plain) == Joined(blocks, Plain) + (if kind == Plain then text else "")
            && (SpokenBut(blocks, i) && text != "" ==> Spoken(more))
  {
    if kind != Thinking { JoinedAway(blocks, i, text, Thinking); }
    if kind != Plain { JoinedAway(blocks, i, text, Plain); }
    JoinedMore(blocks, i, text);
  }

  /** The blocks after the end of a stream that had `blocks`. */
  function Ended(blocks: seq<Block>, remaining: string, calls: seq<Use>): seq<Block> {
    var all := AllClosed(blocks) + (if remaining == "" then [] else [Block(Plain, remaining, false)]) + CallBlocks(calls);
    if all == [] then [Block(Plain, "", false)] else all
  }

  /** What a client has been told in the end: the calls are the last blocks, in order, before them the thinking blocks say
      the reasoning and the plain ones the text, and only a message that says nothing has an empty block. */
  ghost predicate Told(blocks: seq<Block>, o: G.Outcome, render: P.ToolCall -> string) {
    && |o.toolCalls| <= |blocks|
    && var n := |blocks| - |o.toolCalls|;
       && (forall i | 0 <= i < |o.toolCalls| ::
             blocks[n + i] == Block(ToolUse(o.toolCalls[i].name), render(o.toolCalls[i]), false))
       && Joined(blocks[..n], Thinking) == o.reasoning && Joined(blocks[..n], Plain) == o.text
       && (Spoken(blocks[..n]) || (blocks == [Block(Plain, "", false)] && o.toolCalls == []))
  }

  lemma EndedTold(blocks: seq<Block>, o: G.Outcome, render: P.ToolCall -> string)
    requires Spoken(blocks) && Joined(blocks, Thinking) == o.reasoning && Joined(blocks, Plain) == o.text
    ensures Told(Ended(blocks, "", Uses(o.toolCalls, render)), o, render)
  {
    var calls := Uses(o.toolCalls, render);
    var all, n := AllClosed(blocks) + [] + CallBlocks(calls), |blocks|;
    JoinedClosed(blocks, Thinking);
    JoinedClosed(blocks, Plain);
    assert all[..n] == AllClosed(blocks);
    if all == [] {
      var e := Ended(blocks, "", calls);
      assert e[..1] == [] + e;
      JoinedOne([], e[0], Thinking);
      JoinedOne([], e[0], Plain);
    }
  }

  class Stream {
    var nextIndex: nat
    var thinkingOpen: bool
    var thinkingIndex: nat
    var textOpen: bool
    var textIndex: nat
    var log: seq<Event>
    ghost var client: Option<Client>

    /** The client is running and holds open exactly the blocks the machine holds open. */
    ghost predicate InStep()
      reads this
    {
      && client == Follow(log) && client.Some? && client.value.phase == Running
      && |client.value.blocks| == nextIndex
      && (thinkingOpen ==> OpenAt(client.value.blocks, thinkingIndex, Thinking))
      && (textOpen ==> OpenAt(client.value.blocks, textIndex, Plain))
      && (forall i | 0 <= i < nextIndex && client.value.blocks[i].open ::
            (thinkingOpen && i == thinkingIndex) || (textOpen && i == textIndex))
    }

    /** What the blocks of a kind say so far. */
    ghost function Said(kind: Kind): string
      reads this
    {
      if client.None? then "" else Joined(client.value.blocks, kind)
    }

    constructor ()
      ensures InStep() && !thinkingOpen && !textOpen && nextIndex == 0
      ensures client.value == Client(Running, [], false)
    {
      nextIndex, thinkingOpen, thinkingIndex, textOpen, textIndex := 0, false, 0, false, 0;
      log := [];
      client := Follow([]);
      new;
      Write(MessageStart);
    }

    method Write(e: Event)
      requires client == Follow(log)
      modifies `log, `client
      ensures client == Follow(log) && client == Step(old(client), e)
    {
      assert (log + [e])[..|log|] == log;
      log := log + [e];
      client := Follow(log);
    }

    /** Starts a block; nothing else changes. */
    method Open(kind: Kind)
      requires InStep()
      modifies `nextIndex, `log, `client
      ensures nextIndex == old(nextIndex) + 1 && client == Follow(log) && client.Some?
      ensures client.value == Client(Running, old(client.value.blocks) + [Block(kind, "", true)],
                                     old(client.value.overlap) || old(SomeOpen(client.value.blocks)))
    {
      Write(BlockStart(nextIndex, kind));
      nextIndex := nextIndex + 1;
    }

    method EnsureThinking()
      requires InStep()
      modifies this
      ensures InStep() && thinkingOpen && textOpen == old(textOpen)
      ensures Said(Thinking) == old(Said(Thinking)) && Said(Plain) == old(Said(Plain))
      ensures old(Spoken(client.value.blocks)) ==> SpokenBut(client.value.blocks, thinkingIndex)
      ensures client.value.overlap <==> old(client.value.overlap) || (old(textOpen) && !old(thinkingOpen))
    {
      if !thinkingOpen {
        JoinedOne(client.value.blocks, Block(Thinking, "", true), Thinking);
        JoinedOne(client.value.blocks, Block(Thinking, "", true), Plain);
        assert textOpen ==> SomeOpen(client.value.blocks);
        thinkingIndex := nextIndex;
        Open(Thinking);
        thinkingOpen := true;
      }
    }

    method EnsureText()
      requires InStep() && !thinkingOpen
      modifies this
      ensures InStep() && !thinkingOpen && textOpen && client.value.overlap == old(client.value.overlap)
      ensures Said(Thinking) == old(Said(Thinking)) && Said(Plain) == old(Said(Plain))
      ensures old(Spoken(client.value.blocks)) ==> SpokenBut(client.value.blocks, textIndex)
    {
      if !textOpen {
        JoinedOne(client.value.blocks, Block(Plain, "", true), Thinking);
        JoinedOne(client.value.blocks, Block(Plain, "", true), Plain);
        assert !SomeOpen(client.value.blocks);
        textIndex := nextIndex;
        Open(Plain);
        textOpen := true;
      }
    }

    /** Adds to an open block. */
    method Say(index: nat, kind: Kind, text: string)
      requires InStep() && OpenAt(client.value.blocks, index, kind)
      modifies `log, `client
      ensures InStep() && client.value.overlap == old(client.value.overlap)
      ensures Said(Thinking) == old(Said(Thinking)) + if kind == Thinking then text else ""
      ensures Said(Plain) == old(Said(Plain)) + if kind == Plain then text else ""
      ensures old(SpokenBut(client.value.blocks, index)) && text != "" ==> Spoken(client.value.blocks)
    {
      SaidMore(client.value.blocks, index, kind, text);
      Write(BlockDelta(index, text));
    }

    method OnReasoning(text: string)
      requires InStep()
      modifies this
      ensures InStep() && thinkingOpen && textOpen == old(textOpen)
      ensures Said(Thinking) == old(Said(Thinking)) + text && Said(Plain) == old(Said(Plain))
      ensures old(Spoken(client.value.blocks)) && text != "" ==> Spoken(client.value.blocks)
      ensures client.value.overlap <==> old(client.value.overlap) || (old(textOpen) && !old(thinkingOpen))
    {
      EnsureThinking();
      Say(thinkingIndex, Thinking, text);
    }

    method StopThinking()
      requires InStep()
      modifies `thinkingOpen, `log, `client
      ensures InStep() && !thinkingOpen && client.value.overlap == old(client.value.overlap)
      ensures AllClosed(client.value.blocks) == AllClosed(old(client.value.blocks))
    {
      if thinkingOpen {
        Write(BlockStop(thinkingIndex));
        thinkingOpen := false;
      }
    }

    method OnContent(text: string)
      requires InStep()
      modifies this
      ensures InStep() && textOpen && !thinkingOpen && client.value.overlap == old(client.value.overlap)
      ensures Said(Thinking) == old(Said(Thinking)) && Said(Plain) == old(Said(Plain)) + text
      ensures old(Spoken(client.value.blocks)) && text != "" ==> Spoken(client.value.blocks)
    {
      ghost var was := client.value.blocks;
      StopThinking();
      SameWords(was, client.value.blocks);
      EnsureText();
      Say(textIndex, Plain, text);
    }

    /** A block that is started, filled and stopped at once. */
    method WholeBlock(kind: Kind, text: Option<string>)
      requires InStep() && !thinkingOpen && !textOpen
      modifies `nextIndex, `log, `client
      ensures InStep() && client.value.overlap == old(client.value.overlap)
      ensures client.value.blocks == old(client.value.blocks) + [Block(kind, if text.Some? then text.value else "", false)]
    {
      var index := nextIndex;
      assert !SomeOpen(client.value.blocks) && (text.Some? ==> "" + text.value == text.value);
      Open(kind);
      if text.Some? { Write(BlockDelta(index, text.value)); }
      Write(BlockStop(index));
    }

    method StopText()
      requires InStep()
      modifies `textOpen, `log, `client
      ensures InStep() && !textOpen && client.value.overlap == old(client.value.overlap)
      ensures AllClosed(client.value.blocks) == AllClosed(old(client.value.blocks))
    {
      if textOpen {
        Write(BlockStop(textIndex));
        textOpen := false;
      }
    }

    /** The rest of the content and the calls, each in a block of its own. */
    method TailBlocks(remaining: string, calls: seq<Use>)
      requires InStep() && !thinkingOpen && !textOpen
      modifies `nextIndex, `log, `client
      ensures InStep() && client.value.overlap == old(client.value.overlap)
      ensures client.value.blocks ==
                old(client.value.blocks) + (if remaining == "" then [] else [Block(Plain, remaining, false)]) + CallBlocks(calls)
    {
      if remaining != "" { WholeBlock(Plain, Some(remaining)); }
      ghost var front := client.value.blocks;
      for i := 0 to |calls|
        invariant InStep() && client.value.overlap == old(client.value.overlap)
        invariant client.value.blocks == front + CallBlocks(calls)[..i]
      {
        WholeBlock(ToolUse(calls[i].name), Some(calls[i].arguments));
      }
    }

    method StopAll()
      requires InStep()
      modifies `thinkingOpen, `textOpen, `log, `client
      ensures InStep() && !thinkingOpen && !textOpen && client.value.overlap == old(client.value.overlap)
      ensures client.value.blocks == AllClosed(old(client.value.blocks))
    {
      StopThinking();
      StopText();
      assert client.value.blocks == AllClosed(client.value.blocks);
    }

    method End()
      requires InStep() && !thinkingOpen && !textOpen
      modifies `log, `client
      ensures client == Follow(log) && client == Some(old(client.value).(phase := Closed)) && !SomeOpen(client.value.blocks)
    {
      assert !SomeOpen(client.value.blocks);
      Write(MessageDelta);
      Write(MessageStop);
    }

    /** Everything after `GenerationService::run` has returned. */
    method Finish(toolCapable: bool, remaining: string, calls: seq<Use>)
      requires InStep()
      modifies this
      ensures client == Follow(log) && client.Some? && client.value.phase == Closed
      ensures client.value.overlap == old(client.value.overlap) && !SomeOpen(client.value.blocks)
      ensures client.value.blocks ==
                Ended(old(client.value.blocks), if toolCapable then remaining else "", if toolCapable then calls else [])
    {
      StopAll();
      if toolCapable { TailBlocks(remaining, calls); }
      if nextIndex == 0 { WholeBlock(Plain, None); }
      End();
    }
  }

  lemma SameWords(a: seq<Block>, b: seq<Block>)
    requires AllClosed(a) == AllClosed(b)
    ensures Joined(a, Thinking) == Joined(b, Thinking) && Joined(a, Plain) == Joined(b, Plain)
    ensures Spoken(a) ==> Spoken(b)
  {
    JoinedClosed(a, Thinking);
    JoinedClosed(b, Thinking);
    JoinedClosed(a, Plain);
    JoinedClosed(b, Plain);
    forall i | 0 <= i < |b| ensures b[i].kind == a[i].kind && b[i].text == a[i].text {
      assert AllClosed(a)[i] == AllClosed(b)[i];
    }
  }

  /** The stream after the callbacks `done`. */
  ghost predicate Given(stream: Stream, done: seq<G.Delta>)
    reads stream
  {
    && stream.InStep() && Spoken(stream.client.value.blocks)
    && stream.Said(Thinking) == G.ReasoningText(done) && stream.Said(Plain) == G.ContentText(done)
    && (stream.textOpen <==> G.SomeContent(done))
    && (stream.thinkingOpen && stream.textOpen ==> stream.client.value.overlap)
    && (stream.client.value.overlap <==> !G.ReasoningFirst(done))
  }

  method Callback(stream: Stream, ghost done: seq<G.Delta>, d: G.Delta)
    requires Given(stream, done) && d.text != ""
    modifies stream
    ensures Given(stream, done + [d])
  {
    G.Append(done, d);
    if d.Reasoning? {
      stream.OnReasoning(d.text);
    } else {
      stream.OnContent(d.text);
    }
  }

  method Callbacks(stream: Stream, callbacks: seq<G.Delta>)
    requires Given(stream, []) && forall i | 0 <= i < |callbacks| :: callbacks[i].text != ""
    modifies stream
    ensures Given(stream, callbacks)
  {
    assert callbacks[..0] == [] && callbacks[..|callbacks|] == callbacks;
    for i := 0 to |callbacks|
      invariant Given(stream, callbacks[..i])
    {
      assert callbacks[..i + 1] == callbacks[..i] + [callbacks[i]];
      Callback(stream, callbacks[..i], callbacks[i]);
    }
  }

  /** A whole stream, from the engine's deltas to the wire. The client accepts all of it, every started block is stopped
      exactly once, the thinking blocks say the reasoning and the plain ones the outcome's text, the calls are the last
      blocks, in order, and two blocks are open at once exactly when reasoning came after content that had been shown.
      `render` writes a call's arguments. */
  method Serve(g: P.Tags, deltas: seq<G.Delta>, toolCapable: bool, maxName: nat, render: P.ToolCall -> string)
    returns (log: seq<Event>, outcome: G.Outcome)
    ensures Follow(log).Some? && Follow(log).value.phase == Closed
    ensures EachStoppedOnce(log)
    ensures Told(Follow(log).value.blocks, outcome, render)
    ensures outcome.reasoning == G.ReasoningText(deltas)
    ensures outcome.text == if toolCapable then P.Parse(g, G.ContentText(deltas), maxName).content else G.ContentText(deltas)
    ensures outcome.toolCalls == if toolCapable then P.Parse(g, G.ContentText(deltas), maxName).toolCalls else []
    ensures Follow(log).value.overlap <==> G.Late(g, toolCapable, deltas)
  {
    var callbacks;
    outcome, callbacks := G.Run(g, deltas, toolCapable, maxName, true, true);
    var stream := new Stream();
    Callbacks(stream, callbacks);
    G.NothingUnstreamed(outcome, callbacks, true);
    var remaining := G.UnstreamedContent(outcome);
    var calls := Uses(outcome.toolCalls, render);
    EndedTold(stream.client.value.blocks, outcome, render);
    stream.Finish(toolCapable, remaining.value, calls);
    log := stream.log;
    StoppedOnce(log);
  }
}

/** The sink between the engine and the HTTP encoders, and the end of `GenerationService::run`. */
module GenerationService {
  import opened Wrappers
  import opened Text
  import opened ToolCallFilter
  import opened ToolCallParser
  import opened ToolCallTheorems

  /** One output delta of the engine, or one callback of the service. */
  datatype Delta = Reasoning(text: string) | Content(text: string)

  datatype Outcome = Outcome(text: string, reasoning: string, toolCalls: seq<ToolCall>, streamedContentBytes: nat)

  function ReasoningText(ds: seq<Delta>): string {
    if ds == [] then "" else
    var last := ds[|ds| - 1];
    ReasoningText(ds[..|ds| - 1]) + if last.Reasoning? then last.text else ""
  }

  function ContentText(ds: seq<Delta>): string {
    if ds == [] then "" else
    var last := ds[|ds| - 1];
    ContentText(ds[..|ds| - 1]) + if last.Content? then last.text else ""
  }

  /** No reasoning text comes after content text. */
  ghost predicate ReasoningFirst(ds: seq<Delta>) {
    forall i, j | 0 <= i < j < |ds| && ds[i].Content? && ds[i].text != "" && ds[j].text != "" :: ds[j].Content?
  }

  ghost predicate NoEmpty(ds: seq<Delta>) {
    forall i | 0 <= i < |ds| :: ds[i].text != ""
  }

  ghost predicate SomeContent(ds: seq<Delta>) {
    exists i :: 0 <= i < |ds| && ds[i].Content? && ds[i].text != ""
  }

  lemma Append(ds: seq<Delta>, d: Delta)
    ensures ReasoningText(ds + [d]) == ReasoningText(ds) + if d.Reasoning? then d.text else ""
    ensures ContentText(ds + [d]) == ContentText(ds) + if d.Content? then d.text else ""
    ensures SomeContent(ds + [d]) <==> SomeContent(ds) || (d.Content? && d.text != "")
    ensures NoEmpty(ds + [d]) <==> NoEmpty(ds) && d.text != ""
    ensures ReasoningFirst(ds + [d]) <==>
            ReasoningFirst(ds) && (d.Content? || d.text == "" || !SomeContent(ds))
  {
    var all := ds + [d];
    assert all[..|ds|] == ds;
    assert forall i | 0 <= i < |ds| :: all[i] == ds[i];
    assert all[|ds|] == d;
  }

  /** What the service shows of a content text while more may come. */
  function Shown(g: Tags, filterToolCalls: bool, text: string): string {
    if filterToolCalls then Visible(g.toolOpen, text) else text
  }

  ghost predicate LateAt(g: Tags, filterToolCalls: bool, ds: seq<Delta>, j: nat)
    requires j < |ds|
  {
    ds[j].Reasoning? && ds[j].text != "" && Shown(g, filterToolCalls, ContentText(ds[..j])) != ""
  }

  /** Some reasoning text comes after content that has been shown; content that is still withheld does not count. */
  ghost predicate Late(g: Tags, filterToolCalls: bool, ds: seq<Delta>) {
    exists j :: 0 <= j < |ds| && LateAt(g, filterToolCalls, ds, j)
  }

  lemma AppendLate(g: Tags, filterToolCalls: bool, ds: seq<Delta>, d: Delta)
    ensures Late(g, filterToolCalls, ds + [d]) <==>
            Late(g, filterToolCalls, ds) || (d.Reasoning? && d.text != "" && Shown(g, filterToolCalls, ContentText(ds)) != "")
  {
    var all := ds + [d];
    assert all[..|ds|] == ds;
    forall j | 0 <= j < |ds| ensures LateAt(g, filterToolCalls, all, j) <==> LateAt(g, filterToolCalls, ds, j) {
      assert all[..j] == ds[..j];
    }
    if Late(g, filterToolCalls, ds) {
      var j :| 0 <= j < |ds| && LateAt(g, filterToolCalls, ds, j);
      assert LateAt(g, filterToolCalls, all, j);
    }
    if Late(g, filterToolCalls, all) {
      var j :| 0 <= j < |all| && LateAt(g, filterToolCalls, all, j);
      if j < |ds| { assert LateAt(g, filterToolCalls, ds, j); }
    }
    if d.Reasoning? && d.text != "" && Shown(g, filterToolCalls, ContentText(ds)) != "" {
      assert LateAt(g, filterToolCalls, all, |ds|);
    }
  }

  lemma ShownExamples()
    ensures Visible(QWEN.toolOpen, "a") == "a" && Visible(QWEN.toolOpen, "<") == ""
  {
    CutUnique(QWEN.toolOpen, "a", 1);
    assert "a"[..1] == "a";
    RTrimUnique("a", 1);
  }

  lemma PairLate(g: Tags, filterToolCalls: bool, content: string, reasoning: string)
    requires reasoning != ""
    ensures Late(g, filterToolCalls, [Content(content), Reasoning(reasoning)]) <==> Shown(g, filterToolCalls, content) != ""
    ensures ReasoningFirst([Content(content), Reasoning(reasoning)]) <==> content == ""
  {
    var none, one: seq<Delta> := [], [Content(content)];
    Append(none, Content(content));
    AppendLate(g, filterToolCalls, none, Content(content));
    assert none + [Content(content)] == one && "" + content == content;
    Append(one, Reasoning(reasoning));
    AppendLate(g, filterToolCalls, one, Reasoning(reasoning));
    assert one + [Reasoning(reasoning)] == [Content(content), Reasoning(reasoning)];
  }

  /** Reasoning after content is late as soon as the content shows, and is not while it is withheld. */
  lemma LateExamples()
    ensures Late(QWEN, true, [Content("a"), Reasoning("b")]) && Late(QWEN, false, [Content("a"), Reasoning("b")])
    ensures !ReasoningFirst([Content("<"), Reasoning("b")]) && !Late(QWEN, true, [Content("<"), Reasoning("b")])
  {
    ShownExamples();
    PairLate(QWEN, true, "a", "b");
    PairLate(QWEN, false, "a", "b");
    PairLate(QWEN, true, "<", "b");
  }

  /** The callbacks made for the deltas published so far, the text of content callbacks aside. */
  ghost predicate CallbacksFit(wantsReasoning: bool, wantsContent: bool, contentBytes: nat,
                               callbacks: seq<Delta>, published: seq<Delta>) {
    && NoEmpty(callbacks)
    && contentBytes == |ContentText(callbacks)|
    && (!wantsContent ==> ContentText(callbacks) == "")
    && ReasoningText(callbacks) == (if wantsReasoning then ReasoningText(published) else "")
    && (SomeContent(callbacks) ==> SomeContent(published))
    && (ReasoningFirst(published) ==> ReasoningFirst(callbacks))
  }

  lemma ReasoningPublished(wr: bool, wc: bool, n: nat, callbacks: seq<Delta>, published: seq<Delta>, text: string)
    requires CallbacksFit(wr, wc, n, callbacks, published) && text != ""
    ensures CallbacksFit(wr, wc, n, if wr then callbacks + [Reasoning(text)] else callbacks, published + [Reasoning(text)])
    ensures ContentText(callbacks + [Reasoning(text)]) == ContentText(callbacks)
    ensures ContentText(published + [Reasoning(text)]) == ContentText(published)
    ensures ReasoningFirst(callbacks + [Reasoning(text)]) <==> ReasoningFirst(callbacks) && ContentText(callbacks) == ""
  {
    Append(published, Reasoning(text));
    Append(callbacks, Reasoning(text));
    TextHasContent(callbacks);
    assert ContentText(callbacks) + "" == ContentText(callbacks);
  }

  /** `ServiceOutputSink`; `wants...` says whether the caller set the callback. */
  class ServiceOutputSink {
    const g: Tags
    const filterToolCalls: bool
    const wantsReasoning: bool
    const wantsContent: bool
    const filter: ToolCallStreamFilter
    var contentBytes: nat
    /** The callbacks made so far. */
    var callbacks: seq<Delta>
    /** The deltas published so far. */
    ghost var published: seq<Delta>

    ghost predicate Counts()
      reads this
    {
      CallbacksFit(wantsReasoning, wantsContent, contentBytes, callbacks, published)
    }

    ghost predicate Valid()
      reads this, filter
    {
      && Counts()
      && (filterToolCalls ==>
            filter.Valid() && !filter.finished && filter.marker == g.toolOpen && filter.fed == ContentText(published))
      && (wantsContent ==> ContentText(callbacks) == Shown(g, filterToolCalls, ContentText(published)))
      && Ordered()
    }

    /** With both callbacks set, reasoning follows content in the callbacks exactly when it is late. */
    ghost predicate Ordered()
      reads this
    {
      wantsReasoning && wantsContent ==> (ReasoningFirst(callbacks) <==> !Late(g, filterToolCalls, published))
    }

    constructor (g: Tags, filterToolCalls: bool, wantsReasoning: bool, wantsContent: bool)
      ensures Valid() && fresh(filter) && published == callbacks == []
      ensures this.g == g && this.filterToolCalls == filterToolCalls
      ensures this.wantsReasoning == wantsReasoning && this.wantsContent == wantsContent
    {
      this.g := g;
      this.filterToolCalls, this.wantsReasoning, this.wantsContent := filterToolCalls, wantsReasoning, wantsContent;
      filter := new ToolCallStreamFilter(g.toolOpen);
      contentBytes, callbacks, published := 0, [], [];
    }

    method PublishContent(text: string)
      requires Counts() && (text != "" ==> SomeContent(published))
      modifies `contentBytes, `callbacks
      ensures Counts() && (ReasoningFirst(callbacks) <==> old(ReasoningFirst(callbacks)))
      ensures ContentText(callbacks) == old(ContentText(callbacks)) + if wantsContent then text else ""
    {
      if text == "" || !wantsContent { return; }
      Append(callbacks, Content(text));
      callbacks := callbacks + [Content(text)];
      contentBytes := contentBytes + |text|;
    }

    method PublishReasoning(text: string)
      requires Counts() && text != ""
      modifies `callbacks, `published
      ensures Counts() && published == old(published) + [Reasoning(text)]
      ensures ContentText(callbacks) == old(ContentText(callbacks))
      ensures ContentText(published) == old(ContentText(published))
      ensures wantsReasoning ==>
                (ReasoningFirst(callbacks) <==> old(ReasoningFirst(callbacks)) && ContentText(callbacks) == "")
    {
      ReasoningPublished(wantsReasoning, wantsContent, contentBytes, callbacks, published, text);
      published := published + [Reasoning(text)];
      if wantsReasoning {
        callbacks := callbacks + [Reasoning(text)];
      }
    }

    method Publish(delta: Delta)
      requires Valid()
      modifies this, filter
      ensures Valid() && published == old(published) + [delta]
    {
      Append(published, delta);
      AppendLate(g, filterToolCalls, published, delta);
      if delta.text == "" {
        published := published + [delta];
        return;
      }
      if delta.Reasoning? {
        PublishReasoning(delta.text);
        return;
      }
      published := published + [delta];
      var visible := delta.text;
      if filterToolCalls {
        var v := filter.Feed(delta.text);
        visible := v.value;
      }
      PublishContent(visible);
    }

    method PublishAll(deltas: seq<Delta>)
      requires Valid() && published == []
      modifies this, filter
      ensures Valid() && published == deltas
    {
      for i := 0 to |deltas|
        invariant Valid() && published == deltas[..i]
      {
        assert deltas[..i + 1] == deltas[..i] + [deltas[i]];
        Publish(deltas[i]);
      }
      assert deltas[..|deltas|] == deltas;
    }

    method Finish(isToolCallResponse: bool) returns (streamed: nat)
      requires Valid()
      modifies this, filter
      ensures Counts() && Ordered() && published == old(published) && streamed == contentBytes
      ensures wantsContent ==>
              ContentText(callbacks) ==
              if filterToolCalls && isToolCallResponse then Visible(g.toolOpen, ContentText(published))
              else ContentText(published)
    {
      if filterToolCalls {
        var tail := filter.Finish(isToolCallResponse);
        TextHasContent(published);
        PublishContent(tail.value);
      }
      streamed := contentBytes;
    }
  }

  lemma {:induction false} TextHasContent(ds: seq<Delta>)
    ensures ContentText(ds) != "" <==> SomeContent(ds)
  {
    if ds != [] {
      var front := ds[..|ds| - 1];
      assert ds == front + [ds[|ds| - 1]];
      TextHasContent(front);
      Append(front, ds[|ds| - 1]);
    }
  }

  lemma {:induction false} LateHasReasoning(ds: seq<Delta>)
    requires !ReasoningFirst(ds)
    ensures ReasoningText(ds) != ""
  {
    var front := ds[..|ds| - 1];
    assert ds == front + [ds[|ds| - 1]];
    Append(front, ds[|ds| - 1]);
    if !ReasoningFirst(front) {
      LateHasReasoning(front);
    }
  }

  /** What the run makes of the engine's content text. */
  method Classify(g: Tags, text: string, toolCapable: bool, maxName: nat)
    returns (content: string, calls: seq<ToolCall>, isToolCall: bool)
    ensures content == if toolCapable then Parse(g, text, maxName).content else text
    ensures calls == if toolCapable then Parse(g, text, maxName).toolCalls else []
    ensures content == if toolCapable && isToolCall then Visible(g.toolOpen, text) else text
  {
    content, calls, isToolCall := text, [], false;
    if toolCapable {
      ContentIsVisible(g, text, maxName);
      var parsed := ParseToolCallOutput(g, text, maxName);
      content, isToolCall := parsed.content, parsed.isToolCallResponse;
      if isToolCall { calls := parsed.toolCalls; }
    }
  }

  /** A run whose engine published `deltas`; the engine's results are the joined channels. */
  method Run(g: Tags, deltas: seq<Delta>, toolCapable: bool, maxName: nat, wantsReasoning: bool, wantsContent: bool)
    returns (outcome: Outcome, callbacks: seq<Delta>)
    ensures outcome.reasoning == ReasoningText(deltas)
    ensures outcome.text == if toolCapable then Parse(g, ContentText(deltas), maxName).content else ContentText(deltas)
    ensures outcome.toolCalls == if toolCapable then Parse(g, ContentText(deltas), maxName).toolCalls else []
    ensures NoEmpty(callbacks) && (ReasoningFirst(deltas) ==> ReasoningFirst(callbacks))
    ensures ReasoningText(callbacks) == if wantsReasoning then outcome.reasoning else ""
    ensures ContentText(callbacks) == if wantsContent then outcome.text else ""
    ensures outcome.streamedContentBytes == |ContentText(callbacks)|
    ensures wantsReasoning && wantsContent ==> (ReasoningFirst(callbacks) <==> !Late(g, toolCapable, deltas))
  {
    var sink := new ServiceOutputSink(g, toolCapable, wantsReasoning, wantsContent);
    sink.PublishAll(deltas);
    var text, calls, isToolCall := Classify(g, ContentText(deltas), toolCapable, maxName);
    var streamed := sink.Finish(isToolCall);
    outcome := Outcome(text, ReasoningText(deltas), calls, streamed);
    callbacks := sink.callbacks;
  }

  /** `unstreamed_content`; `None` is the `logic_error`. */
  function UnstreamedContent(outcome: Outcome): Option<string> {
    if outcome.streamedContentBytes > |outcome.text| then None
    else Some(outcome.text[outcome.streamedContentBytes..])
  }

  /** With a content callback nothing is left to write at the end, and the check cannot fail. */
  lemma NothingUnstreamed(outcome: Outcome, callbacks: seq<Delta>, wantsContent: bool)
    requires ContentText(callbacks) == if wantsContent then outcome.text else ""
    requires outcome.streamedContentBytes == |ContentText(callbacks)|
    ensures UnstreamedContent(outcome) == Some(if wantsContent then "" else outcome.text)
  {
    var n := outcome.streamedContentBytes;
    assert outcome.text[n..] == if wantsContent then "" else outcome.text;
  }
}

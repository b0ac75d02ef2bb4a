/** The streaming filter against the whole-string parser. */
module ToolCallTheorems {
  import opened Wrappers
  import opened Text
  import opened ToolCallFilter
  import opened ToolCallParser
  import opened ToolCallGrammar

  /** What the parser calls the content is the filter's visible text, or the whole text. */
  lemma ContentIsVisible(g: Tags, text: string, maxName: nat)
    ensures var p := Parse(g, text, maxName);
            && p.content == (if p.isToolCallResponse then Visible(g.toolOpen, text) else text)
            && (p.isToolCallResponse <==> p.toolCalls != [])
  {
    CutAtMarker(g.toolOpen, text);
  }

  /** However the text is cut into chunks, the filter emits the parser's content. */
  method StreamChunks(g: Tags, chunks: seq<string>, maxName: nat) returns (out: string, parsed: Parsed)
    ensures parsed == Parse(g, Concat(chunks), maxName)
    ensures out == parsed.content
  {
    var filter := new ToolCallStreamFilter(g.toolOpen);
    var text := "";
    out := "";
    for i := 0 to |chunks|
      invariant filter.Valid() && !filter.finished && fresh(filter)
      invariant text == filter.fed == Concat(chunks[..i])
      invariant out == Visible(filter.marker, text)
    {
      assert chunks[..i + 1] == chunks[..i] + [chunks[i]];
      ConcatAppend(chunks[..i], chunks[i]);
      var visible := filter.Feed(chunks[i]);
      out := out + visible.value;
      text := text + chunks[i];
    }
    assert chunks[..|chunks|] == chunks;
    parsed := ParseToolCallOutput(g, text, maxName);
    var tail := filter.Finish(parsed.isToolCallResponse);
    out := out + tail.value;
    ContentIsVisible(g, text, maxName);
  }

  /** The withheld text is a run of blanks and then, before a marker, the longest proper prefix of the marker that ends the
      text; from a marker on, everything from the first one. */
  lemma WithheldShape(m: string, t: string)
    ensures var v, c := |Visible(m, t)|, Cut(m, t);
            && v <= c && AllSpace(t, v, c) && (v > 0 ==> !IsSpace(t[v - 1]))
            && (Find(t, m, 0).Some? ==> c == Find(t, m, 0).value)
            && (Find(t, m, 0).None? ==>
                  && |t| - c < |m| && t[c..] == m[..|t| - c]
                  && forall n: nat | |t| - c < n <= |t| && n < |m| :: t[|t| - n..] != m[..n])
  {
    var c := Cut(m, t);
    VisibleSpec(m, t);
    CutAtMarker(m, t);
    if Find(t, m, 0).None? {
      forall n: nat | |t| - c < n <= |t| && n < |m|
        ensures t[|t| - n..] != m[..n]
      {
        assert !MayStartMarker(m, t, |t| - n);
      }
    }
  }

  // ---- Every withheld byte may still turn out to be superfluous ----

  function SampleBlock(g: Tags): string { g.functionOpen + ("f" + (">" + g.functionClose)) }

  /** A call of a function `f` without arguments. */
  function Sample(g: Tags): CallText { CallText("", SampleBlock(g), "", "f", "", []) }

  lemma Piece(head: string, a: string, rest: string)
    ensures var t := head + (a + rest);
            StartsWithAt(t, |head|, a) && t[..|head|] == head && t == (head + a) + rest
  {
    var t := head + (a + rest);
    assert t[|head|..|head| + |a|] == a;
    StartsWithSlice(t, |head|, a);
  }

  lemma Pieces(head: string, a: string, b: string, d: string)
    ensures var t := head + (a + (b + d)); var n := |head|;
            && StartsWithAt(t, n, a) && StartsWithAt(t, n + |a|, b) && StartsWithAt(t, n + |a| + |b|, d)
            && |t| == n + |a| + |b| + |d| && t[..n] == head
  {
    Piece(head, a, b + d);
    Piece(head + a, b, d);
    Piece(head + a + b, d, "");
    assert d + "" == d;
  }

  lemma SampleBlockOk(g: Tags, maxName: nat)
    requires maxName >= 1
    ensures Sample(g).BlockOk(g, maxName)
  {
    Pieces(g.functionOpen, "f", ">", g.functionClose);
    StartsWithSlice(SampleBlock(g), 0, g.functionOpen);
  }

  lemma SampleHasNoClose(g: Tags)
    requires |g.toolClose| >= 2 && |g.functionClose| < |g.toolClose| && Absent(g.toolClose[1], g.functionOpen)
    requires g.toolClose[1] != 'f' && g.toolClose[1] != '>' && g.toolClose[1] != g.functionClose[0]
    ensures !Contains(SampleBlock(g), g.toolClose)
  {
    var block, n := SampleBlock(g), |g.functionOpen|;
    forall i: nat
      ensures !StartsWithAt(block, i, g.toolClose)
    {
      if i + 1 < n {
        AbsentAt(g.toolClose[1], g.functionOpen, i + 1);
      }
      assert i + 1 < n ==> block[i + 1] == g.functionOpen[i + 1];
      assert block[n] == 'f' && block[n + 1] == '>' && block[n + 2] == g.functionClose[0];
      Mismatch(block, i, g.toolClose, 1);
    }
  }

  lemma QwenSample()
    ensures !Contains(SampleBlock(QWEN), QWEN.toolClose)
  {
    var open, close := FUNCTION_OPEN, TOOL_CLOSE;
    assert open == "<function=" && close == "</tool_call>" && FUNCTION_CLOSE == "</function>";
    assert close[1] == '/';
    AbsentFrom('/', open);
    SampleHasNoClose(QWEN);
  }

  lemma PrefixHasNoMarker(m: string, t: string)
    ensures !Contains(t[..Cut(m, t)], m) || m == ""
  {
    var a := t[..Cut(m, t)];
    forall i: nat
      ensures !StartsWithAt(a, i, m) || m == ""
    {
      StartsWithSlice(a, i, m);
      if m != "" && i + |m| <= |a| {
        assert a[i..i + |m|] == t[i..i + |m|];
        assert !MayStartMarker(m, t, i);
      }
    }
  }

  /** Appending the rest of the marker and a sample call completes the withheld text. */
  function Completion(g: Tags, t: string): string
    requires Find(t, g.toolOpen, 0).None?
  {
    CutAtMarker(g.toolOpen, t);
    g.toolOpen[|t| - Cut(g.toolOpen, t)..] + (SampleBlock(g) + g.toolClose)
  }

  lemma Glue(t: string, c: nat, m: string, tail: string)
    requires c <= |t| <= c + |m| && t[c..] == m[..|t| - c]
    ensures t + (m[|t| - c..] + tail) == t[..c] + (m + tail)
  {
    assert t == t[..c] + m[..|t| - c];
    assert m == m[..|t| - c] + m[|t| - c..];
  }

  lemma CompletionGlued(g: Tags, t: string)
    requires Find(t, g.toolOpen, 0).None?
    ensures t + Completion(g, t) == t[..Cut(g.toolOpen, t)] + (g.toolOpen + (SampleBlock(g) + g.toolClose))
  {
    WithheldShape(g.toolOpen, t);
    Glue(t, Cut(g.toolOpen, t), g.toolOpen, SampleBlock(g) + g.toolClose);
  }

  lemma SampleSpells(g: Tags, head: string, block: string, all: string)
    requires block == SampleBlock(g) && all == head + (g.toolOpen + (block + g.toolClose)) && !Contains(block, g.toolClose)
    ensures Sample(g).Spells(g, all, |head|) && Sample(g).End(g, |head|) == |all| && all[..|head|] == head
  {
    Pieces(head, g.toolOpen, block, g.toolClose);
  }

  lemma CompletionSpells(g: Tags, t: string)
    requires Find(t, g.toolOpen, 0).None? && !Contains(SampleBlock(g), g.toolClose)
    ensures var c, all := Cut(g.toolOpen, t), t + Completion(g, t);
            Sample(g).Spells(g, all, c) && Sample(g).End(g, c) == |all| && all[..c] == t[..c]
  {
    CompletionGlued(g, t);
    SampleSpells(g, t[..Cut(g.toolOpen, t)], SampleBlock(g), t + Completion(g, t));
  }

  /** The filter is as eager as possible: some continuation makes the parser drop every withheld byte. */
  lemma CompletionDropsWithheld(g: Tags, t: string, maxName: nat)
    requires Find(t, g.toolOpen, 0).None? && !Contains(SampleBlock(g), g.toolClose) && maxName >= 1
    ensures Parse(g, t + Completion(g, t), maxName).isToolCallResponse
    ensures Parse(g, t + Completion(g, t), maxName).content == Visible(g.toolOpen, t)
  {
    var c, all, cs := Cut(g.toolOpen, t), t + Completion(g, t), [Sample(g)];
    CompletionSpells(g, t);
    SampleBlockOk(g, maxName);
    PrefixHasNoMarker(g.toolOpen, t);
    assert cs[1..] == [];
    assert CallsSpell(g, all, |all|, [], maxName);
    ToolResponseAccepted(g, all, c, cs, maxName);
  }

  /** With no admissible function name the parser never sees a tool response. */
  lemma NoNameNoResponse(g: Tags, text: string)
    ensures !Parse(g, text, 0).isToolCallResponse
  {
    var first := Find(text, g.toolOpen, 0);
    if first.Some? && NextCall(g, text, first.value, 0).Call? {
      var c := NextCallSound(g, text, first.value, 0);
    }
  }

  /** Some continuation of `t` is a tool response. */
  ghost predicate MayRespond(g: Tags, t: string, maxName: nat) {
    exists u :: Parse(g, t + u, maxName).isToolCallResponse
  }

  /** What may be shown of `t`: all of it if no continuation is a tool response, and what the filter shows otherwise. */
  ghost function Safe(g: Tags, t: string, maxName: nat): string {
    if MayRespond(g, t, maxName) then Visible(g.toolOpen, t) else t
  }

  lemma SafeIsSafe(g: Tags, t: string, u: string, maxName: nat)
    ensures Safe(g, t, maxName) <= Parse(g, t + u, maxName).content
  {
    ContentIsVisible(g, t + u, maxName);
    if MayRespond(g, t, maxName) {
      VisibleMonotone(g.toolOpen, t, u);
      VisibleSpec(g.toolOpen, t + u);
    }
  }

  lemma SafeIsReached(g: Tags, t: string, maxName: nat) returns (u: string)
    requires !Contains(SampleBlock(g), g.toolClose)
    ensures Parse(g, t + u, maxName).content == Safe(g, t, maxName)
  {
    if MayRespond(g, t, maxName) {
      u :| Parse(g, t + u, maxName).isToolCallResponse;
      if Find(t, g.toolOpen, 0).Some? {
        ContentIsVisible(g, t + u, maxName);
        MarkerStays(g.toolOpen, t, u);
      } else {
        if maxName == 0 { NoNameNoResponse(g, t + u); }
        u := Completion(g, t);
        CompletionDropsWithheld(g, t, maxName);
      }
    } else {
      u := "";
      ContentIsVisible(g, t + u, maxName);
      assert t + u == t;
    }
  }

  /** An output is right for every continuation of `t` if and only if it is a part of `Safe(t)`. */
  lemma SafeIsOptimal(g: Tags, t: string, out: string, maxName: nat)
    requires !Contains(SampleBlock(g), g.toolClose)
    ensures (forall u :: out <= Parse(g, t + u, maxName).content) <==> out <= Safe(g, t, maxName)
  {
    if out <= Safe(g, t, maxName) {
      forall u ensures out <= Parse(g, t + u, maxName).content { SafeIsSafe(g, t, u, maxName); }
    }
    if forall u :: out <= Parse(g, t + u, maxName).content {
      var u := SafeIsReached(g, t, maxName);
      assert out <= Parse(g, t + u, maxName).content;
    }
  }

  /** The filter is as eager as possible on `t` if and only if some continuation of `t` is a tool response or nothing is
      withheld; before a marker, with any name allowed, one always is. */
  lemma VisibleIsOptimal(t: string, out: string, maxName: nat)
    ensures (forall u :: out <= Parse(QWEN, t + u, maxName).content) <==> out <= Safe(QWEN, t, maxName)
    ensures Safe(QWEN, t, maxName) == Visible(QWEN.toolOpen, t) <==>
              MayRespond(QWEN, t, maxName) || Visible(QWEN.toolOpen, t) == t
    ensures Find(t, QWEN.toolOpen, 0).None? && maxName >= 1 ==> MayRespond(QWEN, t, maxName)
  {
    QwenSample();
    SafeIsOptimal(QWEN, t, out, maxName);
    if Find(t, QWEN.toolOpen, 0).None? && maxName >= 1 { CompletionDropsWithheld(QWEN, t, maxName); }
  }

  lemma FoundTag(text: string, tag: Tag, from: nat)
    requires Find(text, tag, from).Some?
    ensures var i := Find(text, tag, from).value; StartsWithAt(text, i, tag) && i < |text| && !IsSpace(text[i])
  {
    FindFirst(text, tag, from);
    TagStarts(text, Find(text, tag, from).value, tag);
  }

  lemma NotACall(g: Tags, text: string, open: nat, close: nat, block: string, maxName: nat)
    requires open < |text| && Find(text, g.toolClose, open + |g.toolOpen|) == Some(close)
    requires open + |g.toolOpen| <= close && block == text[open + |g.toolOpen|..close]
    requires ParseOneToolCall(g, block, maxName).None?
    ensures CallAt(g, text, open, maxName) == Malformed
  {
  }

  lemma NoFirstCall(g: Tags, text: string, open: nat, maxName: nat)
    requires open < |text| && Find(text, g.toolOpen, 0) == Some(open) && !IsSpace(text[open])
    requires CallAt(g, text, open, maxName) == Malformed
    ensures !Parse(g, text, maxName).isToolCallResponse
  {
    assert NextCall(g, text, open, maxName) == Malformed;
  }

  lemma RejectedText(g: Tags, text: string, open: nat, close: nat, block: string, maxName: nat)
    requires Find(text, g.toolOpen, 0) == Some(open) && Find(text, g.toolClose, open + |g.toolOpen|) == Some(close)
    requires block == text[open + |g.toolOpen|..close] && ParseOneToolCall(g, block, maxName).None?
    ensures !Parse(g, text, maxName).isToolCallResponse
  {
    FoundTag(text, g.toolOpen, 0);
    NotACall(g, text, open, close, block, maxName);
    NoFirstCall(g, text, open, maxName);
  }

  /** The first block is found where it was, whatever follows. */
  lemma BlockStays(g: Tags, t: string, u: string, open: nat, close: nat)
    requires Find(t, g.toolOpen, 0) == Some(open) && Find(t, g.toolClose, open + |g.toolOpen|) == Some(close)
    ensures Find(t + u, g.toolOpen, 0) == Some(open) && Find(t + u, g.toolClose, open + |g.toolOpen|) == Some(close)
    ensures (t + u)[open + |g.toolOpen|..close] == t[open + |g.toolOpen|..close]
  {
    FindStays(t, u, g.toolOpen, 0);
    FindStays(t, u, g.toolClose, open + |g.toolOpen|);
  }

  /** A closed first block that is not a call settles the matter: no continuation is a tool response. */
  lemma RejectedBlock(g: Tags, t: string, open: nat, close: nat, block: string, maxName: nat)
    requires Find(t, g.toolOpen, 0) == Some(open) && Find(t, g.toolClose, open + |g.toolOpen|) == Some(close)
    requires block == t[open + |g.toolOpen|..close] && ParseOneToolCall(g, block, maxName).None?
    ensures !MayRespond(g, t, maxName)
  {
    forall u ensures !Parse(g, t + u, maxName).isToolCallResponse {
      BlockStays(g, t, u, open, close);
      RejectedText(g, t + u, open, close, block, maxName);
    }
  }

  lemma FindStays(t: string, u: string, pat: string, from: nat)
    requires Find(t, pat, from).Some?
    ensures Find(t + u, pat, from) == Find(t, pat, from)
  {
    var i := Find(t, pat, from).value;
    FindFirst(t, pat, from);
    forall j: nat | from <= j <= i ensures StartsWithAt(t + u, j, pat) <==> StartsWithAt(t, j, pat) {
      StartsWithSlice(t, j, pat);
      StartsWithSlice(t + u, j, pat);
      if j + |pat| <= |t| { assert (t + u)[j..j + |pat|] == t[j..j + |pat|]; }
    }
    FindUnique(t + u, pat, from, i);
  }

  lemma NoCallInX(g: Tags, maxName: nat)
    requires |g.functionOpen| > 1
    ensures ParseOneToolCall(g, "x", maxName).None?
  {
    StartsWithSlice("x", SkipWs("x", 0), g.functionOpen);
  }

  lemma FindX(g: Tags, t: string)
    requires |g.toolClose| > 1 && t == "" + (g.toolOpen + ("x" + g.toolClose))
    ensures var n := |g.toolOpen|;
            Find(t, g.toolOpen, 0) == Some(0) && Find(t, g.toolClose, n) == Some(n + 1) && t[n..n + 1] == "x"
  {
    Pieces("", g.toolOpen, "x", g.toolClose);
    Scan(t, 0, "", g.toolOpen);
    forall i: nat ensures !StartsWithAt("x", i, g.toolClose) { StartsWithSlice("x", i, g.toolClose); }
    Scan(t, |g.toolOpen|, "x", g.toolClose);
  }

  /** A block without a function: everything could be shown, and the filter shows nothing. */
  lemma WithheldForNothing(g: Tags, maxName: nat)
    requires |g.functionOpen| > 1 && |g.toolClose| > 1
    ensures var t := "" + (g.toolOpen + ("x" + g.toolClose));
            !MayRespond(g, t, maxName) && Safe(g, t, maxName) == t && Visible(g.toolOpen, t) == ""
  {
    var t, n := "" + (g.toolOpen + ("x" + g.toolClose)), |g.toolOpen|;
    FindX(g, t);
    NoCallInX(g, maxName);
    RejectedBlock(g, t, 0, n + 1, "x", maxName);
    CutAtMarker(g.toolOpen, t);
  }

  /** So it is in the Qwen notation. */
  lemma QwenWithheldForNothing(maxName: nat)
    ensures exists t :: !MayRespond(QWEN, t, maxName) && Safe(QWEN, t, maxName) == t && Visible(QWEN.toolOpen, t) == "" != t
  {
    assert |QWEN.functionOpen| > 1 && |QWEN.toolClose| > 1;
    WithheldForNothing(QWEN, maxName);
  }
}

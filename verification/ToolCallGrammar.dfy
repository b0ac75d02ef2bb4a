/** The language of tool responses, written down piece by piece without any scanning,
    and the proof that the parser accepts exactly that language. */
module ToolCallGrammar {
  import opened Wrappers
  import opened Text
  import opened ToolCallFilter
  import opened ToolCallParser

  /** The pieces of one parameter: blanks, the key, the raw value. */
  datatype ParamText = ParamText(lead: string, key: string, raw: string) {
    function OpenAt(pos: nat): nat { pos + |lead| }
    function KeyAt(g: Tags, pos: nat): nat { OpenAt(pos) + |g.paramOpen| }
    function RawAt(g: Tags, pos: nat): nat { KeyAt(g, pos) + |key| + 1 }
    function CloseAt(g: Tags, pos: nat): nat { RawAt(g, pos) + |raw| }
    function End(g: Tags, pos: nat): nat { CloseAt(g, pos) + |g.paramClose| }

    ghost predicate Ok(g: Tags) {
      Blank(lead) && key != "" && !Contains(key, ">") && !Contains(raw, g.paramClose)
    }

    /** `text` has these pieces one after the other from `pos` on. */
    ghost predicate Spells(g: Tags, text: string, pos: nat) {
      && Ok(g)
      && StartsWithAt(text, pos, lead)
      && StartsWithAt(text, OpenAt(pos), g.paramOpen)
      && StartsWithAt(text, KeyAt(g, pos), key)
      && StartsWithAt(text, KeyAt(g, pos) + |key|, ">")
      && StartsWithAt(text, RawAt(g, pos), raw)
      && StartsWithAt(text, CloseAt(g, pos), g.paramClose)
    }
  }

  ghost predicate Blank(s: string) { AllSpace(s, 0, |s|) }

  /** From `pos` on, `text` is the parameters `ps` and then only blanks. */
  ghost predicate ParamsSpell(g: Tags, text: string, pos: nat, ps: seq<ParamText>)
    decreases |ps|
  {
    if ps == [] then pos <= |text| && AllSpace(text, pos, |text|)
    else ps[0].Spells(g, text, pos) && ParamsSpell(g, text, ps[0].End(g, pos), ps[1..])
  }

  /** One call: blanks, then the text between the tool tags, whose pieces are given too. */
  datatype CallText = CallText(before: string, block: string, lead: string, name: string,
                               body: string, params: seq<ParamText>) {
    function NameAt(g: Tags): nat { |lead| + |g.functionOpen| }
    function BodyAt(g: Tags): nat { NameAt(g) + |name| + 1 }
    function CloseAt(g: Tags): nat { BodyAt(g) + |body| }
    function Trail(g: Tags): nat { CloseAt(g) + |g.functionClose| }

    ghost predicate HeaderOk(g: Tags, maxName: nat) {
      && Blank(lead) && StartsWithAt(block, 0, lead)
      && StartsWithAt(block, |lead|, g.functionOpen)
      && ValidFunctionName(name, maxName) && StartsWithAt(block, NameAt(g), name)
      && StartsWithAt(block, NameAt(g) + |name|, ">")
    }

    ghost predicate BodyOk(g: Tags) {
      && !Contains(body, g.functionClose) && StartsWithAt(block, BodyAt(g), body)
      && StartsWithAt(block, CloseAt(g), g.functionClose)
      && AllSpace(block, Trail(g), |block|)
      && ParamsSpell(g, body, 0, params)
    }

    /** The text between the tool tags is one function element. */
    ghost predicate BlockOk(g: Tags, maxName: nat) { HeaderOk(g, maxName) && BodyOk(g) }

    function OpenAt(pos: nat): nat { pos + |before| }
    function BlockAt(g: Tags, pos: nat): nat { OpenAt(pos) + |g.toolOpen| }
    function End(g: Tags, pos: nat): nat { BlockAt(g, pos) + |block| + |g.toolClose| }

    ghost predicate Spells(g: Tags, text: string, pos: nat) {
      && Blank(before) && StartsWithAt(text, pos, before)
      && StartsWithAt(text, OpenAt(pos), g.toolOpen)
      && !Contains(block, g.toolClose) && StartsWithAt(text, BlockAt(g, pos), block)
      && StartsWithAt(text, BlockAt(g, pos) + |block|, g.toolClose)
    }

    function Meaning(): ToolCall { ToolCall(name, Args(params, map[])) }
  }

  /** Later occurrences of a key win, as in the JSON object the source fills. */
  function Args(ps: seq<ParamText>, args: map<string, string>): map<string, string> {
    if ps == [] then args else Args(ps[1..], args[ps[0].key := Trim(ps[0].raw)])
  }

  /** From `pos` on, `text` is the calls `cs` and then only blanks. */
  ghost predicate CallsSpell(g: Tags, text: string, pos: nat, cs: seq<CallText>, maxName: nat)
    decreases |cs|
  {
    if cs == [] then pos <= |text| && AllSpace(text, pos, |text|)
    else cs[0].Spells(g, text, pos) && cs[0].BlockOk(g, maxName) && CallsSpell(g, text, cs[0].End(g, pos), cs[1..], maxName)
  }

  function Meanings(cs: seq<CallText>): seq<ToolCall> {
    if cs == [] then [] else [cs[0].Meaning()] + Meanings(cs[1..])
  }

  /** Parameter `j` is the last one with this key. */
  ghost predicate LastWith(ps: seq<ParamText>, key: string, j: nat) {
    j < |ps| && ps[j].key == key && forall l | j < l < |ps| :: ps[l].key != key
  }

  /** The call has the name that is spelled and exactly the keys that are spelled, each with the raw value of its last
      parameter, stripped of white space at both ends. */
  ghost predicate Denotes(c: CallText, call: ToolCall) {
    && call.name == c.name
    && (forall key | key in call.args :: exists j: nat :: LastWith(c.params, key, j))
    && (forall key, j: nat | LastWith(c.params, key, j) ::
          key in call.args && Stripped(c.params[j].raw, call.args[key]))
  }

  ghost predicate AllDenote(cs: seq<CallText>, calls: seq<ToolCall>) {
    |cs| == |calls| && forall i | 0 <= i < |cs| :: Denotes(cs[i], calls[i])
  }

  lemma {:induction false} ArgsElsewhere(ps: seq<ParamText>, args: map<string, string>, key: string)
    requires forall l | 0 <= l < |ps| :: ps[l].key != key
    ensures key in Args(ps, args) <==> key in args
    ensures key in args ==> Args(ps, args)[key] == args[key]
  {
    if ps != [] { ArgsElsewhere(ps[1..], args[ps[0].key := Trim(ps[0].raw)], key); }
  }

  lemma {:induction false} ArgsLast(ps: seq<ParamText>, args: map<string, string>, key: string, j: nat)
    requires LastWith(ps, key, j)
    ensures key in Args(ps, args) && Args(ps, args)[key] == Trim(ps[j].raw)
  {
    var more := args[ps[0].key := Trim(ps[0].raw)];
    if j > 0 { ArgsLast(ps[1..], more, key, j - 1); } else { ArgsElsewhere(ps[1..], more, key); }
  }

  lemma {:induction false} ArgsSpelled(ps: seq<ParamText>, key: string) returns (j: nat)
    requires exists l :: 0 <= l < |ps| && ps[l].key == key
    ensures LastWith(ps, key, j)
  {
    j := |ps| - 1;
    if ps[j].key != key { j := ArgsSpelled(ps[..j], key); }
  }

  lemma MeaningDenoted(c: CallText)
    ensures Denotes(c, c.Meaning())
  {
    var args := c.Meaning().args;
    forall key | key in args ensures exists j: nat :: LastWith(c.params, key, j) {
      if forall l | 0 <= l < |c.params| :: c.params[l].key != key { ArgsElsewhere(c.params, map[], key); }
      var j := ArgsSpelled(c.params, key);
    }
    forall key, j: nat | LastWith(c.params, key, j) ensures key in args && Stripped(c.params[j].raw, args[key]) {
      ArgsLast(c.params, map[], key, j);
      TrimExact(c.params[j].raw, args[key]);
    }
  }

  lemma {:induction false} MeaningsDenoted(cs: seq<CallText>)
    ensures AllDenote(cs, Meanings(cs))
  {
    if cs != [] {
      MeaningDenoted(cs[0]);
      MeaningsDenoted(cs[1..]);
      forall i | 0 < i < |cs| ensures Denotes(cs[i], Meanings(cs)[i]) { assert cs[i] == cs[1..][i - 1]; }
    }
  }

  /** `text` is a prefix without the marker, followed by one or more calls. */
  ghost predicate ToolResponse(g: Tags, text: string, prefix: nat, cs: seq<CallText>, maxName: nat) {
    && prefix <= |text| && !Contains(text[..prefix], g.toolOpen)
    && cs != [] && cs[0].before == "" && CallsSpell(g, text, prefix, cs, maxName)
  }

  // ---- Scanning text whose pieces are known ----

  lemma InnerMatch(text: string, pos: nat, a: string, pat: string, j: nat)
    requires StartsWithAt(text, pos, a) && pos <= j && j + |pat| <= pos + |a|
    ensures StartsWithAt(text, j, pat) <==> StartsWithAt(a, j - pos, pat)
  {
    StartsWithSlice(text, pos, a);
    StartsWithSlice(text, j, pat);
    StartsWithSlice(a, j - pos, pat);
    Subslice(text, pos, |a|, j - pos, |pat|);
  }

  lemma NoEarlierMatch(text: string, pos: nat, a: string, pat: string, j: nat)
    requires StartsWithAt(text, pos, a) && StartsWithAt(text, pos + |a|, pat)
    requires Sharp(pat) && !Contains(a, pat) && pos <= j < pos + |a|
    ensures !StartsWithAt(text, j, pat)
  {
    var k := pos + |a| - j;
    if k < |pat| {
      AbsentAt(pat[0], pat[1..], k - 1);
      assert pat[k] == pat[1..][k - 1] && text[j + k] == pat[0];
      Mismatch(text, j, pat, k);
    } else {
      InnerMatch(text, pos, a, pat, j);
    }
  }

  lemma Scan(text: string, pos: nat, a: string, pat: string)
    requires StartsWithAt(text, pos, a) && StartsWithAt(text, pos + |a|, pat)
    requires Sharp(pat) && !Contains(a, pat)
    ensures Find(text, pat, pos) == Some(pos + |a|) && text[pos..pos + |a|] == a
  {
    StartsWithSlice(text, pos, a);
    forall j: nat | pos <= j < pos + |a|
      ensures !StartsWithAt(text, j, pat)
    {
      NoEarlierMatch(text, pos, a, pat, j);
    }
    FindUnique(text, pat, pos, pos + |a|);
  }

  /** Conversely, what `Find` skips does not contain the pattern. */
  lemma Scanned(text: string, pos: nat, pat: string)
    requires pos <= |text| && pat != ""
    requires Find(text, pat, pos).Some?
    ensures var i := Find(text, pat, pos).value;
            && StartsWithAt(text, pos, text[pos..i]) && StartsWithAt(text, i, pat)
            && !Contains(text[pos..i], pat)
  {
    var i := Find(text, pat, pos).value;
    var a := text[pos..i];
    FindFirst(text, pat, pos);
    SliceStarts(text, pos, i);
    forall k: nat
      ensures !StartsWithAt(a, k, pat)
    {
      if k + |pat| <= |a| { InnerMatch(text, pos, a, pat, pos + k); }
    }
  }

  lemma SkipBlank(text: string, pos: nat, ws: string)
    requires Blank(ws) && StartsWithAt(text, pos, ws)
    requires pos + |ws| < |text| ==> !IsSpace(text[pos + |ws|])
    ensures SkipWs(text, pos) == pos + |ws|
  {
    SkipWsSpec(text, pos);
    StartsWithSlice(text, pos, ws);
    forall i | pos <= i < pos + |ws|
      ensures IsSpace(text[i])
    {
      assert text[i] == ws[i - pos];
    }
  }

  lemma SkipRest(text: string, pos: nat)
    requires pos <= |text| && AllSpace(text, pos, |text|)
    ensures SkipWs(text, pos) == |text|
  {
    SkipWsSpec(text, pos);
  }

  lemma Skipped(text: string, pos: nat)
    requires pos <= |text|
    ensures var ws := text[pos..SkipWs(text, pos)]; Blank(ws) && StartsWithAt(text, pos, ws)
  {
    SkipWsSpec(text, pos);
    SliceStarts(text, pos, SkipWs(text, pos));
  }

  // ---- Every tool response is accepted ----

  lemma TagStarts(text: string, pos: nat, tag: string)
    requires StartsWithAt(text, pos, tag) && tag != "" && !IsSpace(tag[0])
    ensures pos < |text| && !IsSpace(text[pos])
  {
  }

  /** The cut points of one parameter determine the parse, and the other way round. */
  lemma ParameterCuts(g: Tags, inner: string, pos: nat, nameEnd: nat, valueEnd: nat, key: string, raw: string)
    requires pos <= |inner| && StartsWithAt(inner, pos, g.paramOpen)
    requires Find(inner, ">", pos + |g.paramOpen|) == Some(nameEnd) && nameEnd != pos + |g.paramOpen|
    requires Find(inner, g.paramClose, nameEnd + 1) == Some(valueEnd)
    requires key == inner[pos + |g.paramOpen|..nameEnd] && raw == inner[nameEnd + 1..valueEnd]
    ensures ParseParameter(g, inner, pos) == Some(Param(key, Trim(raw), valueEnd + |g.paramClose|))
  {
    ValueCuts(g, inner, key, nameEnd + 1, valueEnd, raw);
  }

  lemma ValueCuts(g: Tags, inner: string, key: string, begin: nat, valueEnd: nat, raw: string)
    requires begin <= |inner| && Find(inner, g.paramClose, begin) == Some(valueEnd) && raw == inner[begin..valueEnd]
    ensures ParseValue(g, inner, key, begin) == Some(Param(key, Trim(raw), valueEnd + |g.paramClose|))
  {
  }

  lemma LeadSkipped(text: string, pos: nat, lead: string, tag: string)
    requires Blank(lead) && StartsWithAt(text, pos, lead)
    requires StartsWithAt(text, pos + |lead|, tag) && tag != "" && !IsSpace(tag[0])
    ensures SkipWs(text, pos) == pos + |lead| < |text|
  {
    TagStarts(text, pos + |lead|, tag);
    SkipBlank(text, pos, lead);
  }

  lemma ParameterRead(g: Tags, text: string, open: nat, keyAt: nat, key: string, rawAt: nat, raw: string)
    requires open <= |text| && StartsWithAt(text, open, g.paramOpen) && keyAt == open + |g.paramOpen|
    requires key != "" && !Contains(key, ">") && StartsWithAt(text, keyAt, key) && StartsWithAt(text, keyAt + |key|, ">")
    requires rawAt == keyAt + |key| + 1 && !Contains(raw, g.paramClose) && StartsWithAt(text, rawAt, raw)
    requires StartsWithAt(text, rawAt + |raw|, g.paramClose)
    ensures ParseParameter(g, text, open) == Some(Param(key, Trim(raw), rawAt + |raw| + |g.paramClose|))
  {
    Scan(text, keyAt, key, ">");
    Scan(text, rawAt, raw, g.paramClose);
    ParameterCuts(g, text, open, keyAt + |key|, rawAt + |raw|, key, raw);
  }

  lemma ParameterAccepted(g: Tags, text: string, pos: nat, p: ParamText)
    requires p.Spells(g, text, pos)
    ensures ParseParameter(g, text, p.OpenAt(pos)) == Some(Param(p.key, Trim(p.raw), p.End(g, pos)))
  {
    ParameterRead(g, text, p.OpenAt(pos), p.KeyAt(g, pos), p.key, p.RawAt(g, pos), p.raw);
  }

  lemma {:induction false} ParametersAccepted(g: Tags, text: string, pos: nat, ps: seq<ParamText>, args: map<string, string>)
    requires pos <= |text| && ParamsSpell(g, text, pos, ps)
    ensures ParseParameters(g, text, pos, args) == Some(Args(ps, args))
    decreases |ps|
  {
    if ps == [] {
      SkipRest(text, pos);
    } else {
      var p := ps[0];
      LeadSkipped(text, pos, p.lead, g.paramOpen);
      ParameterAccepted(g, text, pos, p);
      ParametersAccepted(g, text, p.End(g, pos), ps[1..], args[p.key := Trim(p.raw)]);
    }
  }

  lemma NameHasNoClose(name: string, maxName: nat)
    requires ValidFunctionName(name, maxName)
    ensures !Contains(name, ">")
  {
    forall i: nat
      ensures !StartsWithAt(name, i, ">")
    {
      assert i < |name| ==> NameChar(name[i]);
    }
  }

  lemma HeaderCuts(g: Tags, block: string, open: nat, nameEnd: nat, maxName: nat)
    requires open == SkipWs(block, 0) && StartsWithAt(block, open, g.functionOpen)
    requires Find(block, ">", open + |g.functionOpen|) == Some(nameEnd)
    requires ValidFunctionName(block[open + |g.functionOpen|..nameEnd], maxName)
    ensures ParseHeader(g, block, maxName) == Some(Header(block[open + |g.functionOpen|..nameEnd], nameEnd + 1))
  {
  }

  lemma BodyCuts(g: Tags, block: string, begin: nat, close: nat, body: string, args: map<string, string>)
    requires Find(block, g.functionClose, begin) == Some(close) && body == block[begin..close]
    requires ParseParameters(g, body, 0, map[]) == Some(args)
    requires SkipWs(block, close + |g.functionClose|) == |block|
    ensures ParseBody(g, block, begin) == Some(args)
  {
  }

  lemma HeaderAccepted(g: Tags, c: CallText, maxName: nat)
    requires c.HeaderOk(g, maxName)
    ensures ParseHeader(g, c.block, maxName) == Some(Header(c.name, c.BodyAt(g)))
  {
    LeadSkipped(c.block, 0, c.lead, g.functionOpen);
    NameHasNoClose(c.name, maxName);
    Scan(c.block, c.NameAt(g), c.name, ">");
    HeaderCuts(g, c.block, |c.lead|, c.NameAt(g) + |c.name|, maxName);
  }

  lemma BodyRead(g: Tags, block: string, begin: nat, body: string, params: seq<ParamText>)
    requires !Contains(body, g.functionClose) && StartsWithAt(block, begin, body)
    requires StartsWithAt(block, begin + |body|, g.functionClose)
    requires AllSpace(block, begin + |body| + |g.functionClose|, |block|) && ParamsSpell(g, body, 0, params)
    ensures ParseBody(g, block, begin) == Some(Args(params, map[]))
  {
    Scan(block, begin, body, g.functionClose);
    SkipRest(block, begin + |body| + |g.functionClose|);
    ParametersAccepted(g, body, 0, params, map[]);
    BodyCuts(g, block, begin, begin + |body|, body, Args(params, map[]));
  }

  lemma BodyAccepted(g: Tags, c: CallText)
    requires c.BodyOk(g)
    ensures ParseBody(g, c.block, c.BodyAt(g)) == Some(Args(c.params, map[]))
  {
    BodyRead(g, c.block, c.BodyAt(g), c.body, c.params);
  }

  lemma BlockAccepted(g: Tags, c: CallText, maxName: nat)
    requires c.BlockOk(g, maxName)
    ensures ParseOneToolCall(g, c.block, maxName) == Some(c.Meaning())
  {
    HeaderAccepted(g, c, maxName);
    BodyAccepted(g, c);
  }

  lemma CallCuts(g: Tags, text: string, open: nat, close: nat, block: string, call: ToolCall, maxName: nat)
    requires open < |text| && StartsWithAt(text, open, g.toolOpen)
    requires Find(text, g.toolClose, open + |g.toolOpen|) == Some(close) && block == text[open + |g.toolOpen|..close]
    requires ParseOneToolCall(g, block, maxName) == Some(call)
    ensures CallAt(g, text, open, maxName) == Call(call, close + |g.toolClose|)
  {
  }

  lemma CallScans(g: Tags, text: string, pos: nat, c: CallText) returns (open: nat, close: nat)
    requires c.Spells(g, text, pos)
    ensures open == SkipWs(text, pos) < |text| && StartsWithAt(text, open, g.toolOpen)
    ensures Find(text, g.toolClose, open + |g.toolOpen|) == Some(close) && c.block == text[open + |g.toolOpen|..close]
    ensures close + |g.toolClose| == c.End(g, pos)
  {
    open, close := c.OpenAt(pos), c.BlockAt(g, pos) + |c.block|;
    LeadSkipped(text, pos, c.before, g.toolOpen);
    Scan(text, c.BlockAt(g, pos), c.block, g.toolClose);
  }

  lemma NextCallAccepted(g: Tags, text: string, pos: nat, c: CallText, maxName: nat)
    requires pos <= |text|
    requires c.Spells(g, text, pos) && ParseOneToolCall(g, c.block, maxName) == Some(c.Meaning())
    ensures NextCall(g, text, pos, maxName) == Call(c.Meaning(), c.End(g, pos))
  {
    var open, close := CallScans(g, text, pos, c);
    CallCuts(g, text, open, close, c.block, c.Meaning(), maxName);
  }

  lemma {:induction false} CallsAccepted(g: Tags, text: string, pos: nat, cs: seq<CallText>, maxName: nat)
    requires pos <= |text| && CallsSpell(g, text, pos, cs, maxName)
    ensures ParseCalls(g, text, pos, maxName) == Some(Meanings(cs))
    decreases |cs|
  {
    if cs == [] {
      SkipRest(text, pos);
    } else {
      BlockAccepted(g, cs[0], maxName);
      NextCallAccepted(g, text, pos, cs[0], maxName);
      CallsAccepted(g, text, cs[0].End(g, pos), cs[1..], maxName);
    }
  }

  /** Completeness: a text of the grammar parses to exactly the calls it spells. */
  lemma ToolResponseAccepted(g: Tags, text: string, prefix: nat, cs: seq<CallText>, maxName: nat)
    requires ToolResponse(g, text, prefix, cs, maxName)
    ensures Parse(g, text, maxName) == Parsed(true, RTrim(text[..prefix]), Meanings(cs))
    ensures AllDenote(cs, Parse(g, text, maxName).toolCalls)
  {
    MeaningsDenoted(cs);
    assert text[0..prefix] == text[..prefix];
    SliceStarts(text, 0, prefix);
    Scan(text, 0, text[..prefix], g.toolOpen);
    CallsAccepted(g, text, prefix, cs, maxName);
  }

  // ---- Only tool responses are accepted ----

  lemma ParameterCut(g: Tags, inner: string, pos: nat) returns (nameEnd: nat, valueEnd: nat)
    requires pos <= |inner| && ParseParameter(g, inner, pos).Some?
    ensures StartsWithAt(inner, pos, g.paramOpen)
    ensures Find(inner, ">", pos + |g.paramOpen|) == Some(nameEnd) && nameEnd != pos + |g.paramOpen|
    ensures Find(inner, g.paramClose, nameEnd + 1) == Some(valueEnd)
  {
    nameEnd := Find(inner, ">", pos + |g.paramOpen|).value;
    valueEnd := Find(inner, g.paramClose, nameEnd + 1).value;
  }

  lemma ParamFromCuts(g: Tags, text: string, pos: nat, open: nat, e: nat, f: nat)
    requires pos <= open && StartsWithAt(text, open, g.paramOpen) && Blank(text[pos..open])
    requires open + |g.paramOpen| < e && StartsWithAt(text, e, ">")
    requires !Contains(text[open + |g.paramOpen|..e], ">")
    requires e < f && StartsWithAt(text, f, g.paramClose) && !Contains(text[e + 1..f], g.paramClose)
    ensures ParamText(text[pos..open], text[open + |g.paramOpen|..e], text[e + 1..f]).Spells(g, text, pos)
  {
    SliceStarts(text, pos, open);
    SliceStarts(text, open + |g.paramOpen|, e);
    SliceStarts(text, e + 1, f);
  }

  lemma ParamFromFinds(g: Tags, text: string, pos: nat, open: nat, e: nat, f: nat)
    requires pos <= |text| && open == SkipWs(text, pos) && StartsWithAt(text, open, g.paramOpen)
    requires Find(text, ">", open + |g.paramOpen|) == Some(e) && e != open + |g.paramOpen|
    requires Find(text, g.paramClose, e + 1) == Some(f)
    ensures ParamText(text[pos..open], text[open + |g.paramOpen|..e], text[e + 1..f]).Spells(g, text, pos)
  {
    Skipped(text, pos);
    Scanned(text, open + |g.paramOpen|, ">");
    Scanned(text, e + 1, g.paramClose);
    ParamFromCuts(g, text, pos, open, e, f);
  }

  lemma ParameterSound(g: Tags, text: string, pos: nat) returns (p: ParamText)
    requires pos <= |text| && ParseParameter(g, text, SkipWs(text, pos)).Some?
    ensures p.Spells(g, text, pos)
  {
    var open := SkipWs(text, pos);
    var e, f := ParameterCut(g, text, open);
    ParamFromFinds(g, text, pos, open, e, f);
    p := ParamText(text[pos..open], text[open + |g.paramOpen|..e], text[e + 1..f]);
  }

  lemma ParametersStep(g: Tags, text: string, pos: nat, args: map<string, string>) returns (p: ParamText)
    requires pos <= |text| && ParseParameters(g, text, pos, args).Some? && SkipWs(text, pos) < |text|
    ensures p.Spells(g, text, pos) && pos < p.End(g, pos) <= |text|
    ensures ParseParameters(g, text, p.End(g, pos), args[p.key := Trim(p.raw)]).Some?
  {
    p := ParameterSound(g, text, pos);
    LeadSkipped(text, pos, p.lead, g.paramOpen);
    ParameterAccepted(g, text, pos, p);
  }

  lemma {:induction false} ParametersSound(g: Tags, text: string, pos: nat, args: map<string, string>) returns (ps: seq<ParamText>)
    requires pos <= |text| && ParseParameters(g, text, pos, args).Some?
    ensures ParamsSpell(g, text, pos, ps)
    decreases |text| - pos
  {
    if SkipWs(text, pos) >= |text| {
      SkipWsSpec(text, pos);
      ps := [];
    } else {
      var p := ParametersStep(g, text, pos, args);
      var rest := ParametersSound(g, text, p.End(g, pos), args[p.key := Trim(p.raw)]);
      ps := [p] + rest;
      assert ps[1..] == rest;
    }
  }

  lemma HeaderCut(g: Tags, block: string, maxName: nat) returns (open: nat, nameEnd: nat)
    requires ParseHeader(g, block, maxName).Some?
    ensures open == SkipWs(block, 0) && StartsWithAt(block, open, g.functionOpen)
    ensures Find(block, ">", open + |g.functionOpen|) == Some(nameEnd)
    ensures ValidFunctionName(block[open + |g.functionOpen|..nameEnd], maxName)
    ensures ParseHeader(g, block, maxName).value.bodyBegin == nameEnd + 1
  {
    open := SkipWs(block, 0);
    nameEnd := Find(block, ">", open + |g.functionOpen|).value;
  }

  lemma BodyCut(g: Tags, block: string, begin: nat) returns (close: nat)
    requires ParseBody(g, block, begin).Some?
    ensures Find(block, g.functionClose, begin) == Some(close)
    ensures ParseParameters(g, block[begin..close], 0, map[]).Some?
    ensures SkipWs(block, close + |g.functionClose|) == |block|
  {
    close := Find(block, g.functionClose, begin).value;
  }

  lemma HeaderSound(g: Tags, c: CallText, open: nat, e: nat, maxName: nat)
    requires open == SkipWs(c.block, 0) && StartsWithAt(c.block, open, g.functionOpen)
    requires Find(c.block, ">", open + |g.functionOpen|) == Some(e)
    requires c.lead == c.block[0..open]
    requires c.name == c.block[open + |g.functionOpen|..e] && ValidFunctionName(c.name, maxName)
    ensures c.HeaderOk(g, maxName) && c.BodyAt(g) == e + 1
  {
    Skipped(c.block, 0);
    Scanned(c.block, open + |g.functionOpen|, ">");
  }

  lemma BodySound(g: Tags, c: CallText, f: nat)
    requires c.BodyAt(g) <= |c.block| && Find(c.block, g.functionClose, c.BodyAt(g)) == Some(f)
    requires SkipWs(c.block, f + |g.functionClose|) == |c.block|
    requires c.body == c.block[c.BodyAt(g)..f] && ParamsSpell(g, c.body, 0, c.params)
    ensures c.BodyOk(g)
  {
    Scanned(c.block, c.BodyAt(g), g.functionClose);
    SkipWsSpec(c.block, f + |g.functionClose|);
  }

  lemma BlockFromCuts(g: Tags, c: CallText, open: nat, e: nat, f: nat, maxName: nat)
    requires open == SkipWs(c.block, 0) && StartsWithAt(c.block, open, g.functionOpen)
    requires Find(c.block, ">", open + |g.functionOpen|) == Some(e) && Find(c.block, g.functionClose, e + 1) == Some(f)
    requires SkipWs(c.block, f + |g.functionClose|) == |c.block|
    requires c.lead == c.block[0..open] && c.name == c.block[open + |g.functionOpen|..e] && ValidFunctionName(c.name, maxName)
    requires c.body == c.block[e + 1..f] && ParamsSpell(g, c.body, 0, c.params)
    ensures c.BlockOk(g, maxName)
  {
    HeaderSound(g, c, open, e, maxName);
    BodySound(g, c, f);
  }

  lemma BlockSound(g: Tags, block: string, maxName: nat, before: string) returns (c: CallText)
    requires ParseHeader(g, block, maxName).Some?
    requires ParseBody(g, block, ParseHeader(g, block, maxName).value.bodyBegin).Some?
    ensures c.block == block && c.before == before && c.BlockOk(g, maxName)
  {
    var open, e := HeaderCut(g, block, maxName);
    var f := BodyCut(g, block, e + 1);
    var ps := ParametersSound(g, block[e + 1..f], 0, map[]);
    c := CallText(before, block, block[0..open], block[open + |g.functionOpen|..e], block[e + 1..f], ps);
    BlockFromCuts(g, c, open, e, f, maxName);
  }

  lemma CallCut(g: Tags, text: string, pos: nat, maxName: nat) returns (open: nat, close: nat)
    requires pos <= |text| && NextCall(g, text, pos, maxName).Call?
    ensures open == SkipWs(text, pos) && StartsWithAt(text, open, g.toolOpen)
    ensures Find(text, g.toolClose, open + |g.toolOpen|) == Some(close)
    ensures ParseOneToolCall(g, text[open + |g.toolOpen|..close], maxName).Some?
    ensures NextCall(g, text, pos, maxName).next == close + |g.toolClose|
  {
    open := SkipWs(text, pos);
    close := Find(text, g.toolClose, open + |g.toolOpen|).value;
  }

  lemma CallFromFinds(g: Tags, text: string, pos: nat, open: nat, close: nat, c: CallText)
    requires pos <= |text| && open == SkipWs(text, pos) && StartsWithAt(text, open, g.toolOpen)
    requires Find(text, g.toolClose, open + |g.toolOpen|) == Some(close)
    requires c.before == text[pos..open] && c.block == text[open + |g.toolOpen|..close]
    ensures c.Spells(g, text, pos) && c.End(g, pos) == close + |g.toolClose|
  {
    Skipped(text, pos);
    Scanned(text, open + |g.toolOpen|, g.toolClose);
  }

  lemma NextCallSound(g: Tags, text: string, pos: nat, maxName: nat) returns (c: CallText)
    requires pos <= |text| && NextCall(g, text, pos, maxName).Call?
    ensures c.Spells(g, text, pos) && c.BlockOk(g, maxName) && c.before == text[pos..SkipWs(text, pos)]
    ensures NextCall(g, text, pos, maxName).next == c.End(g, pos)
  {
    var open, close := CallCut(g, text, pos, maxName);
    c := BlockSound(g, text[open + |g.toolOpen|..close], maxName, text[pos..open]);
    CallFromFinds(g, text, pos, open, close, c);
  }

  lemma {:induction false} CallsSound(g: Tags, text: string, pos: nat, maxName: nat) returns (cs: seq<CallText>)
    requires pos <= |text| && ParseCalls(g, text, pos, maxName).Some?
    ensures CallsSpell(g, text, pos, cs, maxName)
    ensures cs != [] ==> cs[0].before == text[pos..SkipWs(text, pos)]
    decreases |text| - pos
  {
    if NextCall(g, text, pos, maxName).End? {
      SkipWsSpec(text, pos);
      cs := [];
    } else {
      var c := NextCallSound(g, text, pos, maxName);
      var rest := CallsSound(g, text, c.End(g, pos), maxName);
      cs := [c] + rest;
      assert cs[1..] == rest;
    }
  }

  lemma ResponseSound(g: Tags, text: string, maxName: nat) returns (prefix: nat, cs: seq<CallText>)
    requires Parse(g, text, maxName).isToolCallResponse
    ensures ToolResponse(g, text, prefix, cs, maxName)
  {
    prefix := Find(text, g.toolOpen, 0).value;
    Scanned(text, 0, g.toolOpen);
    cs := CallsSound(g, text, prefix, maxName);
    CallsAccepted(g, text, prefix, cs, maxName);
    TagStarts(text, prefix, g.toolOpen);
    assert text[0..prefix] == text[..prefix];
  }

  /** The content and the calls of a tool response, as the pieces of the text determine them. */
  ghost predicate Reads(text: string, prefix: nat, cs: seq<CallText>, p: Parsed)
    requires prefix <= |text|
  {
    p.content == RTrim(text[..prefix]) && AllDenote(cs, p.toolCalls)
  }

  /** The parser reports a tool response exactly for the texts of the grammar, and then every way to spell the text gives
      the content and the calls it reports. */
  lemma ParserLanguage(g: Tags, text: string, maxName: nat)
    ensures Parse(g, text, maxName).isToolCallResponse <==>
            exists prefix: nat, cs: seq<CallText> :: ToolResponse(g, text, prefix, cs, maxName)
    ensures forall prefix: nat, cs: seq<CallText> | ToolResponse(g, text, prefix, cs, maxName) ::
              Reads(text, prefix, cs, Parse(g, text, maxName))
  {
    if Parse(g, text, maxName).isToolCallResponse {
      var prefix, cs := ResponseSound(g, text, maxName);
    }
    forall prefix: nat, cs: seq<CallText> | ToolResponse(g, text, prefix, cs, maxName)
      ensures Parse(g, text, maxName).isToolCallResponse && Reads(text, prefix, cs, Parse(g, text, maxName))
    {
      ToolResponseAccepted(g, text, prefix, cs, maxName);
    }
  }
}

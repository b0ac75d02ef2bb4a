/** The whole-string parser for Qwen tool calls, and the grammar it accepts. */
module ToolCallParser {
  import opened Wrappers
  import opened Text
  import opened ToolCallFilter

  /** No proper suffix of the tag starts like the tag, and the tag does not start with white space. */
  predicate Sharp(pat: string) {
    |pat| > 0 && !IsSpace(pat[0]) && Absent(pat[0], pat[1..])
  }

  type Tag = t: string | Sharp(t) witness "<"

  /** The tags of the tool-call notation. */
  datatype Tags = Tags(toolOpen: Tag, toolClose: Tag, functionOpen: Tag, functionClose: Tag,
                       paramOpen: Tag, paramClose: Tag)

  function AsTag(s: string): Tag
    requires |s| > 0 && !IsSpace(s[0]) && forall k | 0 < k < |s| :: s[k] != s[0]
  {
    AbsentFrom(s[0], s[1..]);
    s
  }

  const TOOL_OPEN: Tag := AsTag("<tool_call>")
  const TOOL_CLOSE: Tag := AsTag("</tool_call>")
  const FUNCTION_OPEN: Tag := AsTag("<function=")
  const FUNCTION_CLOSE: Tag := AsTag("</function>")
  const PARAM_OPEN: Tag := AsTag("<parameter=")
  const PARAM_CLOSE: Tag := AsTag("</parameter>")

  /** The tags of the Qwen notation. */
  const QWEN := Tags(TOOL_OPEN, TOOL_CLOSE, FUNCTION_OPEN, FUNCTION_CLOSE, PARAM_OPEN, PARAM_CLOSE)

  /** `args` keeps each argument's trimmed text; the JSON value is a function of that text. */
  datatype ToolCall = ToolCall(name: string, args: map<string, string>)
  datatype Parsed = Parsed(isToolCallResponse: bool, content: string, toolCalls: seq<ToolCall>)
  datatype Param = Param(key: string, value: string, next: nat)

  predicate NameChar(c: char) {
    'a' <= c <= 'z' || 'A' <= c <= 'Z' || '0' <= c <= '9' || c == '_' || c == '-'
  }

  predicate ValidFunctionName(name: string, maxLength: nat) {
    name != "" && |name| <= maxLength && forall i | 0 <= i < |name| :: NameChar(name[i])
  }

  function ParseParameter(g: Tags, inner: string, pos: nat): (r: Option<Param>)
    requires pos <= |inner|
    ensures r.Some? ==> pos < r.value.next <= |inner|
  {
    if !StartsWithAt(inner, pos, g.paramOpen) then None else
    var nameBegin := pos + |g.paramOpen|;
    var nameEnd := Find(inner, ">", nameBegin);
    if nameEnd.None? || nameEnd.value == nameBegin then None else
    ParseValue(g, inner, inner[nameBegin..nameEnd.value], nameEnd.value + 1)
  }

  /** The value of parameter `key`, which begins at `valueBegin`. */
  function ParseValue(g: Tags, inner: string, key: string, valueBegin: nat): (r: Option<Param>)
    requires valueBegin <= |inner|
    ensures r.Some? ==> valueBegin <= r.value.next <= |inner|
  {
    var valueEnd := Find(inner, g.paramClose, valueBegin);
    if valueEnd.None? then None else
    Some(Param(key, Trim(inner[valueBegin..valueEnd.value]), valueEnd.value + |g.paramClose|))
  }

  function ParseParameters(g: Tags, params: string, pos: nat, args: map<string, string>): (r: Option<map<string, string>>)
    requires pos <= |params|
    decreases |params| - pos
  {
    var p := SkipWs(params, pos);
    if p >= |params| then Some(args) else
    var one := ParseParameter(g, params, p);
    if one.None? then None else
    ParseParameters(g, params, one.value.next, args[one.value.key := one.value.value])
  }

  datatype Header = Header(name: string, bodyBegin: nat)

  /** Everything up to the end of the function's opening tag. */
  function ParseHeader(g: Tags, block: string, maxName: nat): (r: Option<Header>) {
    var pos := SkipWs(block, 0);
    if !StartsWithAt(block, pos, g.functionOpen) then None else
    var nameBegin := pos + |g.functionOpen|;
    var nameEnd := Find(block, ">", nameBegin);
    if nameEnd.None? || nameEnd.value == nameBegin then None else
    var name := block[nameBegin..nameEnd.value];
    if !ValidFunctionName(name, maxName) then None else Some(Header(name, nameEnd.value + 1))
  }

  /** The parameters and the closing tag, which must end the block. */
  function ParseBody(g: Tags, block: string, bodyBegin: nat): (r: Option<map<string, string>>) {
    var functionEnd := Find(block, g.functionClose, bodyBegin);
    if functionEnd.None? then None else
    var args := ParseParameters(g, block[bodyBegin..functionEnd.value], 0, map[]);
    if SkipWs(block, functionEnd.value + |g.functionClose|) != |block| then None else args
  }

  function ParseOneToolCall(g: Tags, block: string, maxName: nat): (r: Option<ToolCall>) {
    var header := ParseHeader(g, block, maxName);
    if header.None? then None else
    var args := ParseBody(g, block, header.value.bodyBegin);
    if args.None? then None else Some(ToolCall(header.value.name, args.value))
  }

  datatype Step = End | Malformed | Call(call: ToolCall, next: nat)

  /** One turn of the outer loop. */
  function NextCall(g: Tags, text: string, pos: nat, maxName: nat): (r: Step)
    requires pos <= |text|
    ensures r.Call? ==> pos < r.next <= |text|
  {
    var p := SkipWs(text, pos);
    if p >= |text| then End else CallAt(g, text, p, maxName)
  }

  /** The call that begins at `open`. */
  function CallAt(g: Tags, text: string, open: nat, maxName: nat): (r: Step)
    requires open < |text|
    ensures r.Call? ==> open < r.next <= |text|
  {
    if !StartsWithAt(text, open, g.toolOpen) then Malformed else
    var innerBegin := open + |g.toolOpen|;
    var close := Find(text, g.toolClose, innerBegin);
    if close.None? then Malformed else
    var call := ParseOneToolCall(g, text[innerBegin..close.value], maxName);
    if call.None? then Malformed else
    Call(call.value, close.value + |g.toolClose|)
  }

  function ParseCalls(g: Tags, text: string, pos: nat, maxName: nat): (r: Option<seq<ToolCall>>)
    requires pos <= |text|
    decreases |text| - pos
  {
    match NextCall(g, text, pos, maxName)
    case End => Some([])
    case Malformed => None
    case Call(call, next) => Prepend([call], ParseCalls(g, text, next, maxName))
  }

  function Prepend(calls: seq<ToolCall>, rest: Option<seq<ToolCall>>): Option<seq<ToolCall>> {
    if rest.None? then None else Some(calls + rest.value)
  }

  function Fallback(text: string): Parsed { Parsed(false, text, []) }

  function Parse(g: Tags, text: string, maxName: nat): (r: Parsed) {
    var first := Find(text, g.toolOpen, 0);
    if first.None? then Fallback(text) else
    var calls := ParseCalls(g, text, first.value, maxName);
    if calls.None? || calls.value == [] then Fallback(text) else
    Parsed(true, RTrim(text[..first.value]), calls.value)
  }

  // ---- The loops of the source ----

  method ParameterLoop(g: Tags, params: string) returns (args: Option<map<string, string>>)
    ensures args == ParseParameters(g, params, 0, map[])
  {
    var pos, found := 0, map[];
    while true
      invariant pos <= |params|
      invariant ParseParameters(g, params, 0, map[]) == ParseParameters(g, params, pos, found)
      decreases |params| - pos
    {
      var p := SkipWs(params, pos);
      if p >= |params| { return Some(found); }
      var one := ParseParameter(g, params, p);
      if one.None? { return None; }
      found := found[one.value.key := one.value.value];
      pos := one.value.next;
    }
  }

  method CallLoop(g: Tags, text: string, first: nat, maxName: nat) returns (r: Option<seq<ToolCall>>)
    requires first <= |text|
    ensures r == ParseCalls(g, text, first, maxName)
  {
    var calls: seq<ToolCall> := [];
    var pos := first;
    ghost var all := ParseCalls(g, text, first, maxName);
    assert all.Some? ==> [] + all.value == all.value;
    while true
      invariant pos <= |text|
      invariant all == Prepend(calls, ParseCalls(g, text, pos, maxName))
      decreases |text| - pos
    {
      match NextCall(g, text, pos, maxName) {
        case End =>
          assert calls + [] == calls;
          return Some(calls);
        case Malformed =>
          return None;
        case Call(call, next) =>
          PrependStep(calls, call, ParseCalls(g, text, next, maxName));
          calls := calls + [call];
          pos := next;
      }
    }
  }

  method ParseToolCallOutput(g: Tags, text: string, maxName: nat) returns (out: Parsed)
    ensures out == Parse(g, text, maxName)
  {
    var first := Find(text, g.toolOpen, 0);
    if first.None? { return Fallback(text); }
    var content := RTrim(text[..first.value]);
    var calls := CallLoop(g, text, first.value, maxName);
    if calls.None? || calls.value == [] { return Fallback(text); }
    return Parsed(true, content, calls.value);
  }

  lemma PrependStep(calls: seq<ToolCall>, call: ToolCall, rest: Option<seq<ToolCall>>)
    ensures Prepend(calls, Prepend([call], rest)) == Prepend(calls + [call], rest)
  {
    if rest.Some? {
      assert calls + ([call] + rest.value) == calls + [call] + rest.value;
    }
  }
}

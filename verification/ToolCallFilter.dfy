/** The incremental filter that hides a possible tool-call suffix. */
module ToolCallFilter {
  import opened Wrappers
  import opened Text

  /** Some continuation of `t` has the marker at position `i`. */
  predicate MayStartMarker(m: string, t: string, i: nat)
    requires i <= |t|
  {
    if i + |m| <= |t| then t[i..i + |m|] == m
    else t[i..] == m[..|t| - i]
  }

  /** The first position of `t` at which a marker starts or may still start. */
  function CutFrom(m: string, t: string, i: nat): (c: nat)
    requires i <= |t|
    ensures i <= c <= |t| && MayStartMarker(m, t, c)
    ensures forall j: nat | i <= j < c :: !MayStartMarker(m, t, j)
    decreases |t| - i
  {
    if MayStartMarker(m, t, i) then i else CutFrom(m, t, i + 1)
  }

  function Cut(m: string, t: string): (c: nat)
    ensures c <= |t| && MayStartMarker(m, t, c)
    ensures forall j: nat | j < c :: !MayStartMarker(m, t, j)
  {
    CutFrom(m, t, 0)
  }

  /** Everything of `t` that no continuation can turn into the lead-in of a tool call. */
  function Visible(m: string, t: string): (v: string)
    ensures |v| <= Cut(m, t)
  {
    RTrim(t[..Cut(m, t)])
  }

  lemma VisibleSpec(m: string, t: string)
    ensures var v := Visible(m, t);
            && v == t[..|v|] && AllSpace(t, |v|, Cut(m, t))
            && (v != "" ==> !IsSpace(v[|v| - 1]))
  {
    RTrimSpec(t[..Cut(m, t)]);
  }

  lemma CutUnique(m: string, t: string, c: nat)
    requires c <= |t| && MayStartMarker(m, t, c)
    requires forall j: nat | j < c :: !MayStartMarker(m, t, j)
    ensures Cut(m, t) == c
  {
  }

  lemma MayStartShrink(m: string, t: string, u: string, i: nat)
    requires i <= |t| && MayStartMarker(m, t + u, i)
    ensures MayStartMarker(m, t, i)
  {
    var n := |m|;
    if i + n <= |t| {
      assert (t + u)[i..i + n] == t[i..i + n];
    } else if i + n <= |t + u| {
      assert t[i..] == (t + u)[i..i + n][..|t| - i];
    } else {
      assert t[i..] == (t + u)[i..][..|t| - i];
    }
  }

  /** More text never moves the cut to the left, so it never hides visible text. */
  lemma VisibleMonotone(m: string, t: string, u: string)
    ensures Cut(m, t) <= Cut(m, t + u)
    ensures Visible(m, t) <= Visible(m, t + u)
  {
    var c, d := Cut(m, t), Cut(m, t + u);
    if d <= |t| {
      MayStartShrink(m, t, u, d);
    }
    VisibleSpec(m, t);
    VisibleSpec(m, t + u);
    var v, s := Visible(m, t), (t + u)[..d];
    assert v != "" ==> s[|v| - 1] == v[|v| - 1];
    assert v == s[..|v|];
  }

  /** Cutting off a visible prefix shifts the cut and nothing else. */
  lemma CutShift(m: string, head: string, tail: string)
    requires |head| <= Cut(m, head + tail)
    ensures Cut(m, head + tail) == |head| + Cut(m, tail)
  {
    var t, n, c := head + tail, |m|, |head| + Cut(m, tail);
    forall j: nat | j <= |tail|
      ensures MayStartMarker(m, t, |head| + j) == MayStartMarker(m, tail, j)
    {
      if j + n <= |tail| {
        assert t[|head| + j..|head| + j + n] == tail[j..j + n];
      } else {
        assert t[|head| + j..] == tail[j..];
      }
    }
    forall j: nat | j < c
      ensures !MayStartMarker(m, t, j)
    {
      if |head| <= j {
        assert MayStartMarker(m, t, |head| + (j - |head|)) == MayStartMarker(m, tail, j - |head|);
      }
    }
    CutUnique(m, t, c);
  }

  lemma VisibleShift(m: string, head: string, tail: string)
    requires |head| <= Cut(m, head + tail)
    requires head != "" ==> !IsSpace(head[|head| - 1])
    ensures Visible(m, head + tail) == head + Visible(m, tail)
  {
    CutShift(m, head, tail);
    assert (head + tail)[..|head| + Cut(m, tail)] == head + tail[..Cut(m, tail)];
    RTrimConcat(head, tail[..Cut(m, tail)]);
  }

  /** Where the marker is present, the cut is its first occurrence. */
  lemma CutAtMarker(m: string, t: string)
    ensures Find(t, m, 0).Some? ==> Cut(m, t) == Find(t, m, 0).value
    ensures Find(t, m, 0).None? ==> Cut(m, t) + |m| > |t|
  {
    var f := Find(t, m, 0);
    FindFirst(t, m, 0);
    if f.Some? {
      forall j: nat | j < f.value
        ensures !MayStartMarker(m, t, j)
      {
        assert !StartsWithAt(t, j, m);
        StartsWithSlice(t, j, m);
      }
      StartsWithSlice(t, f.value, m);
      CutUnique(m, t, f.value);
    } else if Cut(m, t) + |m| <= |t| {
      StartsWithSlice(t, Cut(m, t), m);
    }
  }

  /** `longest_suffix_prefix(text, marker)` for the tool-call marker. */
  method LongestSuffixPrefix(m: string, text: string) returns (size: nat)
    requires Find(text, m, 0).None?
    ensures size <= |text| && Cut(m, text) == |text| - size
  {
    CutAtMarker(m, text);
    size := if |text| < |m| - 1 then |text| else |m| - 1;
    while size != 0
      invariant size <= |text| && size < |m|
      invariant Cut(m, text) + size >= |text|
    {
      if text[|text| - size..] == m[..size] {
        assert MayStartMarker(m, text, |text| - size);
        return;
      }
      assert !MayStartMarker(m, text, |text| - size);
      size := size - 1;
    }
  }

  /** The loop that moves `safe_end` left over white space. */
  method SafeEnd(text: string, limit: nat) returns (safeEnd: nat)
    requires limit <= |text|
    ensures safeEnd <= limit && text[..safeEnd] == RTrim(text[..limit])
  {
    safeEnd := limit;
    while safeEnd != 0 && IsSpace(text[safeEnd - 1])
      invariant safeEnd <= limit
      invariant AllSpace(text, safeEnd, limit)
    {
      safeEnd := safeEnd - 1;
    }
    RTrimUnique(text[..limit], safeEnd);
    assert text[..limit][..safeEnd] == text[..safeEnd];
  }

  /** Both scans of the buffered text: the marker search, then the partial marker at the end. */
  method ScanPending(m: string, pending: string) returns (safeEnd: nat, marker: bool)
    ensures safeEnd <= |pending| && pending[..safeEnd] == Visible(m, pending)
    ensures marker <==> Find(pending, m, 0).Some?
  {
    CutAtMarker(m, pending);
    var found := Find(pending, m, 0);
    if found.Some? {
      safeEnd := SafeEnd(pending, found.value);
      return safeEnd, true;
    }
    var prefix := LongestSuffixPrefix(m, pending);
    safeEnd := SafeEnd(pending, |pending| - prefix);
    return safeEnd, false;
  }

  /** The buffers of a filter that has been fed `fed` and has emitted `Visible(m, fed)`. */
  ghost predicate Tracks(m: string, fed: string, pending: string, toolRegion: string, saw: bool) {
    && (saw <==> Find(fed, m, 0).Some?)
    && (if saw then pending == "" && Visible(m, fed) + toolRegion == fed
        else toolRegion == "" && Visible(m, fed) + pending == fed)
  }

  class ToolCallStreamFilter {
    const marker: string
    var pending: string
    var toolRegion: string
    var emittedBytes: nat
    var sawToolMarker: bool
    var finished: bool
    /** Everything fed so far. */
    ghost var fed: string

    ghost predicate Valid()
      reads this
    {
      emittedBytes == |Visible(marker, fed)| && Tracks(marker, fed, pending, toolRegion, sawToolMarker)
    }

    constructor (marker: string)
      requires marker != ""
      ensures Valid() && this.marker == marker && fed == "" && !finished
    {
      this.marker := marker;
      pending, toolRegion, emittedBytes, sawToolMarker, finished := "", "", 0, false, false;
      fed := "";
    }

    /** Returns what the new text makes visible; `None` is the `logic_error` of a finished filter. */
    method Feed(text: string) returns (visible: Option<string>)
      requires Valid()
      modifies this
      ensures visible.None? <==> old(finished)
      ensures visible.None? ==> unchanged(this)
      ensures visible.Some? ==> Valid() && !finished && fed == old(fed) + text
      ensures visible.Some? ==> Visible(marker, fed) == old(Visible(marker, fed)) + visible.value
    {
      if finished { return None; }
      if text == "" {
        assert fed + text == fed;
        return Some("");
      }
      if sawToolMarker {
        FeedRegion(marker, fed, toolRegion, text);
        toolRegion, fed := toolRegion + text, fed + text;
        return Some("");
      }
      FeedPending(marker, fed, pending, text);
      pending, fed := pending + text, fed + text;
      var safeEnd, seen := ScanPending(marker, pending);
      var v, rest := pending[..safeEnd], pending[safeEnd..];
      emittedBytes := emittedBytes + |v|;
      if seen {
        toolRegion, pending, sawToolMarker := rest, "", true;
      } else {
        pending := rest;
      }
      return Some(v);
    }

    /** A valid tool response drops the withheld text, anything else flushes it. */
    method Finish(isToolCallResponse: bool) returns (tail: Option<string>)
      requires Valid()
      modifies this
      ensures tail.None? <==> old(finished)
      ensures tail.None? ==> unchanged(this)
      ensures tail.Some? ==> finished && fed == old(fed)
      ensures tail.Some? ==> Visible(marker, fed) + tail.value == if isToolCallResponse then Visible(marker, fed) else fed
      ensures tail.Some? ==> emittedBytes == |Visible(marker, fed) + tail.value|
    {
      if finished { return None; }
      finished := true;
      if isToolCallResponse {
        pending, toolRegion := "", "";
        return Some("");
      }
      var t := pending;
      t := t + toolRegion;
      toolRegion := "";
      emittedBytes := emittedBytes + |t|;
      return Some(t);
    }
  }

  lemma MarkerStays(m: string, t: string, u: string)
    requires Find(t, m, 0).Some?
    ensures Find(t + u, m, 0) == Find(t, m, 0)
    ensures Visible(m, t + u) == Visible(m, t)
  {
    VisibleMonotone(m, t, u);
    CutAtMarker(m, t);
    var f := Find(t, m, 0).value;
    FindFirst(t, m, 0);
    StartsWithSlice(t, f, m);
    StartsWithSlice(t + u, f, m);
    assert (t + u)[f..f + |m|] == t[f..f + |m|];
    FindFirst(t + u, m, 0);
    CutAtMarker(m, t + u);
    assert (t + u)[..f] == t[..f];
  }

  lemma FindShift(m: string, head: string, tail: string)
    requires |head| <= Cut(m, head + tail)
    ensures Find(head + tail, m, 0).Some? <==> Find(tail, m, 0).Some?
  {
    var t, n := head + tail, |m|;
    CutShift(m, head, tail);
    CutAtMarker(m, t);
    CutAtMarker(m, tail);
    var c := Cut(m, tail);
    FindFirst(t, m, 0);
    FindFirst(tail, m, 0);
    StartsWithSlice(t, |head| + c, m);
    StartsWithSlice(tail, c, m);
    if Find(t, m, 0).Some? {
      assert tail[c..c + n] == t[|head| + c..|head| + c + n];
    }
    if Find(tail, m, 0).Some? {
      assert t[|head| + c..|head| + c + n] == tail[c..c + n];
    }
  }

  lemma FeedRegion(m: string, fed: string, region: string, text: string)
    requires Tracks(m, fed, "", region, true)
    ensures Visible(m, fed + text) == Visible(m, fed)
    ensures Tracks(m, fed + text, "", region + text, true)
  {
    MarkerStays(m, fed, text);
    assert Visible(m, fed) + (region + text) == Visible(m, fed) + region + text;
  }

  /** Scanning the withheld text alone is as good as scanning everything fed so far. */
  lemma ScanShift(m: string, head: string, pending: string, text: string)
    requires Visible(m, head + pending) == head
    ensures Visible(m, head + pending + text) == head + Visible(m, pending + text)
    ensures Find(head + pending + text, m, 0).Some? <==> Find(pending + text, m, 0).Some?
  {
    assert head + pending + text == head + (pending + text);
    VisibleMonotone(m, head + pending, text);
    VisibleSpec(m, head + pending);
    VisibleShift(m, head, pending + text);
    FindShift(m, head, pending + text);
  }

  lemma FeedPending(m: string, fed: string, pending: string, text: string)
    requires Tracks(m, fed, pending, "", false)
    ensures var p := pending + text; var v := Visible(m, p);
            && Visible(m, fed + text) == Visible(m, fed) + v
            && (if Find(p, m, 0).Some? then Tracks(m, fed + text, "", p[|v|..], true)
                else Tracks(m, fed + text, p[|v|..], "", false))
  {
    var head, p := Visible(m, fed), pending + text;
    ScanShift(m, head, pending, text);
    VisibleSpec(m, p);
    SplitAppend(head, p, |Visible(m, p)|);
    AppendAssoc(head, pending, text);
  }
}

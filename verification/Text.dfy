/** Byte strings and the scanning helpers shared by the serving code.
    A `char` stands for one byte of the C++ string. */
module Text {
  import opened Wrappers

  /** `std::isspace` in the C locale. */
  predicate IsSpace(c: char) {
    c == ' ' || c == '\t' || c == '\n' || c == '\r' || c == '\U{000B}' || c == '\U{000C}'
  }

  ghost predicate AllSpace(s: string, lo: nat, hi: nat)
    requires hi <= |s|
  {
    forall i | lo <= i < hi :: IsSpace(s[i])
  }

  /** `s` without its trailing white space. */
  function RTrim(s: string): (r: string)
    ensures |r| <= |s|
  {
    if s != "" && IsSpace(s[|s| - 1]) then RTrim(s[..|s| - 1]) else s
  }

  lemma {:induction false} RTrimSpec(s: string)
    ensures RTrim(s) == s[..|RTrim(s)|] && AllSpace(s, |RTrim(s)|, |s|)
    ensures RTrim(s) != "" ==> !IsSpace(s[|RTrim(s)| - 1])
  {
    if s != "" && IsSpace(s[|s| - 1]) {
      RTrimSpec(s[..|s| - 1]);
    }
  }

  /** The clauses of `RTrimSpec` have no other solution. */
  lemma RTrimUnique(s: string, n: nat)
    requires n <= |s| && AllSpace(s, n, |s|)
    requires n > 0 ==> !IsSpace(s[n - 1])
    ensures RTrim(s) == s[..n]
  {
    RTrimSpec(s);
  }

  lemma RTrimConcat(head: string, tail: string)
    requires head != "" ==> !IsSpace(head[|head| - 1])
    ensures RTrim(head + tail) == head + RTrim(tail)
  {
    RTrimSpec(tail);
    var s, v := head + tail, RTrim(tail);
    var n := |head| + |v|;
    assert s[..n] == head + v;
    assert n > 0 ==> s[n - 1] == (head + v)[n - 1];
    RTrimUnique(s, n);
  }

  /** `text` has `pat` at `pos`. */
  predicate StartsWithAt(text: string, pos: nat, pat: string)
    ensures StartsWithAt(text, pos, pat) ==> pos + |pat| <= |text|
    decreases |pat|
  {
    if |pat| == 0 then pos <= |text|
    else pos < |text| && text[pos] == pat[0] && StartsWithAt(text, pos + 1, pat[1..])
  }

  lemma {:induction false} StartsWithSlice(text: string, pos: nat, pat: string)
    ensures StartsWithAt(text, pos, pat) <==> pos + |pat| <= |text| && text[pos..pos + |pat|] == pat
    decreases |pat|
  {
    if |pat| > 0 && pos < |text| {
      StartsWithSlice(text, pos + 1, pat[1..]);
      if pos + |pat| <= |text| {
        assert text[pos..pos + |pat|] == [text[pos]] + text[pos + 1..pos + |pat|];
        assert pat == [pat[0]] + pat[1..];
      }
    }
  }

  lemma SliceStarts(text: string, pos: nat, end: nat)
    requires pos <= end <= |text|
    ensures StartsWithAt(text, pos, text[pos..end])
  {
    StartsWithSlice(text, pos, text[pos..end]);
  }

  lemma Mismatch(text: string, pos: nat, pat: string, k: nat)
    requires k < |pat| && (pos + |pat| <= |text| ==> text[pos + k] != pat[k])
    ensures !StartsWithAt(text, pos, pat)
  {
    StartsWithSlice(text, pos, pat);
    assert pos + |pat| <= |text| ==> text[pos..pos + |pat|][k] == text[pos + k];
  }

  predicate Absent(c: char, s: string) {
    |s| == 0 || (s[0] != c && Absent(c, s[1..]))
  }

  lemma {:induction false} AbsentAt(c: char, s: string, k: nat)
    requires Absent(c, s) && k < |s|
    ensures s[k] != c
  {
    if k > 0 {
      AbsentAt(c, s[1..], k - 1);
    }
  }

  lemma {:induction false} AbsentFrom(c: char, s: string)
    requires forall k | 0 <= k < |s| :: s[k] != c
    ensures Absent(c, s)
  {
    if |s| > 0 {
      AbsentFrom(c, s[1..]);
    }
  }

  ghost predicate Contains(text: string, pat: string) {
    exists i: nat :: StartsWithAt(text, i, pat)
  }

  /** `std::string_view::find(pat, from)`. */
  function Find(text: string, pat: string, from: nat): (r: Option<nat>)
    ensures r.Some? ==> from <= r.value && r.value + |pat| <= |text|
    decreases |text| + 1 - from
  {
    if from + |pat| > |text| then None
    else if StartsWithAt(text, from, pat) then Some(from)
    else Find(text, pat, from + 1)
  }

  /** The result of `Find` is an occurrence, and there is no earlier one. */
  lemma {:induction false} FindFirst(text: string, pat: string, from: nat)
    ensures var r := Find(text, pat, from);
            && (r.Some? ==> StartsWithAt(text, r.value, pat))
            && (forall j: nat | from <= j && (r.Some? ==> j < r.value) :: !StartsWithAt(text, j, pat))
    decreases |text| + 1 - from
  {
    if from + |pat| <= |text| && !StartsWithAt(text, from, pat) {
      FindFirst(text, pat, from + 1);
    }
  }

  lemma FindUnique(text: string, pat: string, from: nat, i: nat)
    requires from <= i && StartsWithAt(text, i, pat)
    requires forall j: nat | from <= j < i :: !StartsWithAt(text, j, pat)
    ensures Find(text, pat, from) == Some(i)
  {
    FindFirst(text, pat, from);
  }

  /** First position at or after `pos` that is not white space. */
  function SkipWs(text: string, pos: nat): (r: nat)
    requires pos <= |text|
    ensures pos <= r <= |text|
    decreases |text| - pos
  {
    if pos < |text| && IsSpace(text[pos]) then SkipWs(text, pos + 1) else pos
  }

  lemma {:induction false} SkipWsSpec(text: string, pos: nat)
    requires pos <= |text|
    ensures AllSpace(text, pos, SkipWs(text, pos))
    ensures SkipWs(text, pos) < |text| ==> !IsSpace(text[SkipWs(text, pos)])
    decreases |text| - pos
  {
    if pos < |text| && IsSpace(text[pos]) {
      SkipWsSpec(text, pos + 1);
    }
  }

  /** `s` without its leading and trailing white space. */
  function Trim(s: string): (r: string) {
    RTrim(s[SkipWs(s, 0)..])
  }

  /** `v` is `s[i..j]`, around it there is only white space, and it neither begins nor ends with any. */
  ghost predicate StrippedAt(s: string, v: string, i: nat, j: nat) {
    && i <= j <= |s| && v == s[i..j] && AllSpace(s, 0, i) && AllSpace(s, j, |s|)
    && (i < j ==> !IsSpace(s[i]) && !IsSpace(s[j - 1]))
  }

  ghost predicate Stripped(s: string, v: string) { exists i: nat, j: nat :: StrippedAt(s, v, i, j) }

  lemma StrippedOnce(s: string, v: string, i: nat, j: nat, w: string, k: nat, l: nat)
    requires StrippedAt(s, v, i, j) && StrippedAt(s, w, k, l)
    ensures v == w
  {
    assert i < j ==> !IsSpace(s[i]) && !IsSpace(s[j - 1]);
    assert k < l ==> !IsSpace(s[k]) && !IsSpace(s[l - 1]);
  }

  /** `Trim` gives the stripped text, and there is only one. */
  lemma TrimExact(s: string, v: string)
    ensures v == Trim(s) <==> Stripped(s, v)
  {
    var i := SkipWs(s, 0);
    var t := s[i..];
    SkipWsSpec(s, 0);
    RTrimSpec(t);
    var j := i + |RTrim(t)|;
    assert forall k | j <= k < |s| :: s[k] == t[k - i];
    assert i < j ==> s[j - 1] == t[j - 1 - i] && s[i] == t[0];
    assert StrippedAt(s, Trim(s), i, j);
    if Stripped(s, v) {
      var k: nat, l: nat :| StrippedAt(s, v, k, l);
      StrippedOnce(s, v, k, l, Trim(s), i, j);
    }
  }

  lemma AppendAssoc(a: string, b: string, c: string)
    ensures a + b + c == a + (b + c)
  {
  }

  lemma SplitAppend(head: string, tail: string, n: nat)
    requires n <= |tail|
    ensures head + tail[..n] + tail[n..] == head + tail
  {
    assert tail == tail[..n] + tail[n..];
  }

  function Concat(parts: seq<string>): (r: string) {
    if parts == [] then "" else parts[0] + Concat(parts[1..])
  }

  lemma {:induction false} ConcatAppend(parts: seq<string>, last: string)
    ensures Concat(parts + [last]) == Concat(parts) + last
  {
    if parts == [] {
      assert Concat([last]) == last;
    } else {
      assert (parts + [last])[1..] == parts[1..] + [last];
      ConcatAppend(parts[1..], last);
    }
  }
}

/** Which file bytes go where, and the aligned spans that are read to get them. */
module CopyRanges {
  import opened Alignment
  import opened Bytes
  import opened CopyStream

  const BLOCK: nat := 4096

  /** A whole number of direct-I/O blocks. */
  ghost predicate Whole(n: nat) {
    n == 0 || (n >= BLOCK && Whole(n - BLOCK))
  }

  lemma {:induction false} WholeBlocks(n: nat)
    ensures Whole(n) <==> n % BLOCK == 0
  {
    if n >= BLOCK { WholeBlocks(n - BLOCK); }
  }

  lemma {:induction false} WholeSum(a: nat, b: nat)
    requires Whole(a) && Whole(b)
    ensures Whole(a + b)
  {
    if a > 0 { WholeSum(a - BLOCK, b); }
  }

  /** File bytes `[begin, end)` go to device offset `dest` on. */
  datatype CopyRange = CopyRange(begin: nat, end: nat, dest: nat)

  datatype Span = Span(begin: nat, end: nat)

  predicate Covers(r: CopyRange, p: int) {
    r.dest <= p < r.dest + (r.end - r.begin)
  }

  /** The file offset that belongs at device offset `p`. */
  function Origin(r: CopyRange, p: int): int {
    r.begin + (p - r.dest)
  }

  /** Ranges are nonempty, ascending and disjoint in the file. */
  predicate InOrder(rs: seq<CopyRange>) {
    && (forall i | 0 <= i < |rs| :: rs[i].begin < rs[i].end)
    && (forall i, j | 0 <= i < j < |rs| :: rs[i].end <= rs[j].begin)
  }

  /** Ranges fit the device and do not share device bytes. */
  ghost predicate Apart(rs: seq<CopyRange>, capacity: nat) {
    && (forall i | 0 <= i < |rs| :: rs[i].begin < rs[i].end && rs[i].dest + (rs[i].end - rs[i].begin) <= capacity)
    && (forall i, j, p | 0 <= i < |rs| && 0 <= j < |rs| && Covers(rs[i], p) && Covers(rs[j], p) :: i == j)
  }

  // ---- What has been loaded ----

  /** Device byte `p` belongs to a range and its file byte comes before `limit`. */
  ghost predicate Due(rs: seq<CopyRange>, limit: nat, p: int) {
    exists i :: 0 <= i < |rs| && Covers(rs[i], p) && Origin(rs[i], p) < limit
  }

  ghost predicate Arrived(r: CopyRange, p: int, file: seq<Byte>, m: Memory) {
    && 0 <= p < |m.bytes| && 0 <= Origin(r, p) < |file|
    && m.bytes[p] == file[Origin(r, p)]
  }

  /** Exactly the bytes whose file offset is below `limit` have been written, once, with the file's bytes. */
  ghost predicate Loaded(rs: seq<CopyRange>, file: seq<Byte>, initial: seq<Byte>, limit: nat, m: Memory) {
    && |m.bytes| == |m.writes| == |initial|
    && (forall p | 0 <= p < |initial| :: m.writes[p] == if Due(rs, limit, p) then 1 else 0)
    && (forall p | 0 <= p < |initial| && !Due(rs, limit, p) :: m.bytes[p] == initial[p])
    && (forall i, p | 0 <= i < |rs| && Covers(rs[i], p) && Origin(rs[i], p) < limit ::
          Arrived(rs[i], p, file, m))
  }

  /** No range has a byte in `[a, b)`. */
  ghost predicate Clear(rs: seq<CopyRange>, a: nat, b: nat) {
    forall i | 0 <= i < |rs| :: rs[i].end <= a || b <= rs[i].begin
  }

  lemma LoadedSkip(rs: seq<CopyRange>, file: seq<Byte>, initial: seq<Byte>, a: nat, b: nat, m: Memory)
    requires Loaded(rs, file, initial, a, m) && Clear(rs, a, b) && a <= b
    ensures Loaded(rs, file, initial, b, m)
  {
    forall p
      ensures Due(rs, b, p) <==> Due(rs, a, p)
    {
      if Due(rs, b, p) {
        var i :| 0 <= i < |rs| && Covers(rs[i], p) && Origin(rs[i], p) < b;
        assert rs[i].end <= a;
        assert Origin(rs[i], p) < a;
      }
      if Due(rs, a, p) {
        var i :| 0 <= i < |rs| && Covers(rs[i], p) && Origin(rs[i], p) < a;
        assert Origin(rs[i], p) < b;
      }
    }
    forall i, p | 0 <= i < |rs| && Covers(rs[i], p) && Origin(rs[i], p) < b
      ensures Arrived(rs[i], p, file, m)
    {
      assert rs[i].end <= a;
      assert Origin(rs[i], p) < a;
    }
  }

  /** Nothing is loaded at first. */
  lemma NothingLoaded(rs: seq<CopyRange>, file: seq<Byte>, initial: seq<Byte>)
    ensures Loaded(rs, file, initial, 0, Memory(initial, seq(|initial|, i => 0)))
  {
  }

  /** One more piece `[a, b)` of range `k`, taken from a slot that holds the file from `source` on. */
  lemma LoadedPiece(rs: seq<CopyRange>, file: seq<Byte>, initial: seq<Byte>, k: nat, a: nat, b: nat, m: Memory,
                    slots: seq<seq<Byte>>, c: Copy, source: nat)
    requires InOrder(rs) && Apart(rs, |initial|) && k < |rs| && rs[k].begin <= a <= b <= rs[k].end
    requires Loaded(rs, file, initial, a, m)
    requires c.slot < |slots| && source <= a && b <= |file| && b - source <= |slots[c.slot]|
    requires slots[c.slot][..b - source] == file[source..b]
    requires c.from == a - source && c.amount == b - a && c.to == rs[k].dest + (a - rs[k].begin)
    ensures Loaded(rs, file, initial, b, Run(m, slots, c))
  {
    var r := Run(m, slots, c);
    forall p
      ensures Due(rs, b, p) <==> Due(rs, a, p) || Hits(c, p)
      ensures !(Due(rs, a, p) && Hits(c, p))
    {
      DuePiece(rs, |initial|, k, a, b, p);
    }
    forall i, p | 0 <= i < |rs| && Covers(rs[i], p) && Origin(rs[i], p) < b
      ensures Arrived(rs[i], p, file, r)
    {
      DuePiece(rs, |initial|, k, a, b, p);
      if Hits(c, p) {
        assert Covers(rs[k], p);
        assert slots[c.slot][..b - source][c.from + (p - c.to)] == file[source..b][c.from + (p - c.to)];
      } else {
        assert Due(rs, b, p);
      }
    }
  }

  lemma DuePiece(rs: seq<CopyRange>, capacity: nat, k: nat, a: nat, b: nat, p: int)
    requires InOrder(rs) && Apart(rs, capacity) && k < |rs| && rs[k].begin <= a <= b <= rs[k].end
    ensures var hit := rs[k].dest + (a - rs[k].begin) <= p < rs[k].dest + (b - rs[k].begin);
            && (Due(rs, b, p) <==> Due(rs, a, p) || hit)
            && !(Due(rs, a, p) && hit)
    ensures forall i | 0 <= i < |rs| && Covers(rs[i], p) && Origin(rs[i], p) < b ::
              Origin(rs[i], p) < a || i == k
  {
  }

  // ---- Sorting ----

  function Place(rs: seq<CopyRange>, r: CopyRange): (out: seq<CopyRange>)
    ensures forall q :: q in out <==> q in rs || q == r
  {
    if rs == [] || r.begin < rs[0].begin then [r] + rs else [rs[0]] + Place(rs[1..], r)
  }

  function SortByBegin(rs: seq<CopyRange>): (out: seq<CopyRange>)
    ensures forall q :: q in out <==> q in rs
  {
    if rs == [] then [] else Place(SortByBegin(rs[1..]), rs[0])
  }

  ghost predicate Ascending(rs: seq<CopyRange>) {
    forall i, j | 0 <= i < j < |rs| :: rs[i].begin <= rs[j].begin
  }

  lemma {:induction false} PlaceAscending(rs: seq<CopyRange>, r: CopyRange)
    requires Ascending(rs)
    ensures Ascending(Place(rs, r))
  {
    if rs != [] && r.begin >= rs[0].begin {
      PlaceAscending(rs[1..], r);
      var rest := Place(rs[1..], r);
      forall j | 0 <= j < |rest|
        ensures rs[0].begin <= rest[j].begin
      {
        assert rest[j] == r || rest[j] in rs[1..];
      }
    }
  }

  lemma {:induction false} SortAscending(rs: seq<CopyRange>)
    ensures Ascending(SortByBegin(rs))
  {
    if rs != [] {
      SortAscending(rs[1..]);
      PlaceAscending(SortByBegin(rs[1..]), rs[0]);
    }
  }

  predicate Separate(q: CopyRange, r: CopyRange) {
    q.end <= r.begin || r.end <= q.begin
  }

  ghost predicate AllSeparate(rs: seq<CopyRange>, r: CopyRange) {
    forall q | q in rs :: Separate(q, r)
  }

  /** No two ranges share a byte of the file. */
  ghost predicate Disjoint(rs: seq<CopyRange>) {
    rs == [] || (AllSeparate(rs[1..], rs[0]) && Disjoint(rs[1..]))
  }

  lemma {:induction false} PlaceDisjoint(rs: seq<CopyRange>, r: CopyRange)
    ensures Disjoint(Place(rs, r)) <==> Disjoint(rs) && AllSeparate(rs, r)
  {
    if rs == [] || r.begin < rs[0].begin {
      assert ([r] + rs)[1..] == rs;
    } else {
      var h, t, p := rs[0], rs[1..], Place(rs[1..], r);
      PlaceDisjoint(t, r);
      assert ([h] + p)[1..] == p;
      assert AllSeparate(p, h) <==> AllSeparate(t, h) && Separate(r, h);
      assert AllSeparate(rs, r) <==> Separate(h, r) && AllSeparate(t, r) by { assert rs == [h] + t; }
    }
  }

  /** Sorting neither makes nor hides an overlap. */
  lemma {:induction false} SortDisjoint(rs: seq<CopyRange>)
    ensures Disjoint(SortByBegin(rs)) <==> Disjoint(rs)
  {
    if rs != [] {
      SortDisjoint(rs[1..]);
      PlaceDisjoint(SortByBegin(rs[1..]), rs[0]);
      assert AllSeparate(SortByBegin(rs[1..]), rs[0]) <==> AllSeparate(rs[1..], rs[0]);
    }
  }

  lemma {:induction false} InOrderIffDisjoint(rs: seq<CopyRange>)
    requires Ascending(rs) && forall i | 0 <= i < |rs| :: rs[i].begin < rs[i].end
    ensures InOrder(rs) <==> Disjoint(rs)
  {
    if rs != [] {
      var h, t := rs[0], rs[1..];
      InOrderIffDisjoint(t);
      if Disjoint(rs) {
        forall j | 0 < j < |rs|
          ensures h.end <= rs[j].begin
        {
          assert rs[j] == t[j - 1] && Separate(t[j - 1], h);
        }
        assert InOrder(t);
        forall i, j | 0 <= i < j < |rs|
          ensures rs[i].end <= rs[j].begin
        {
          assert i > 0 ==> rs[i] == t[i - 1] && rs[j] == t[j - 1];
        }
      }
      if InOrder(rs) {
        forall q | q in t
          ensures Separate(q, h)
        {
          var j :| 0 <= j < |t| && t[j] == q;
          assert rs[j + 1] == q;
        }
      }
    }
  }

  /** The overlap check compares neighbours only. */
  method NoOverlap(rs: seq<CopyRange>) returns (ok: bool)
    requires Ascending(rs) && forall i | 0 <= i < |rs| :: rs[i].begin < rs[i].end
    ensures ok <==> InOrder(rs)
  {
    var i := 1;
    while i < |rs|
      invariant (i <= |rs| || i == 1) && (i <= |rs| ==> InOrder(rs[..i]))
    {
      if rs[i].begin < rs[i - 1].end { return false; }
      assert forall j | 0 <= j < i :: rs[..i][j].end <= rs[..i][i - 1].end;
      i := i + 1;
    }
    assert rs[..|rs|] == rs;
    return true;
  }

  // ---- Read spans ----

  ghost predicate Inside(r: CopyRange, spans: seq<Span>) {
    exists j :: 0 <= j < |spans| && spans[j].begin <= r.begin && r.end <= spans[j].end
  }

  /** Spans begin on a block, end before `limit`, and whole blocks read for one never reach the next. */
  ghost predicate SpansApart(spans: seq<Span>, limit: nat) {
    && (forall j | 0 <= j < |spans| :: spans[j].begin % BLOCK == 0 && spans[j].begin < spans[j].end <= limit)
    && (forall i, j | 0 <= i < j < |spans| :: AlignUp(spans[i].end, BLOCK) < spans[j].begin)
  }

  /** Extends the last span, or starts a new one when a whole block lies between. */
  function Absorb(spans: seq<Span>, r: CopyRange): seq<Span> {
    var begin := AlignDown(r.begin, BLOCK);
    if spans == [] || begin > AlignUp(spans[|spans| - 1].end, BLOCK) then spans + [Span(begin, r.end)] else
    var last := spans[|spans| - 1];
    spans[|spans| - 1 := Span(last.begin, if last.end >= r.end then last.end else r.end)]
  }

  lemma AbsorbApart(spans: seq<Span>, r: CopyRange, limit: nat)
    requires SpansApart(spans, limit) && r.begin < r.end <= limit
    requires spans != [] ==> spans[|spans| - 1].end <= r.begin
    ensures var out := Absorb(spans, r);
            out != [] && SpansApart(out, limit) && out[|out| - 1].end == r.end && out[|out| - 1].begin <= r.begin
  {
  }

  lemma AbsorbKeeps(spans: seq<Span>, r: CopyRange, q: CopyRange)
    requires Inside(q, spans)
    ensures Inside(q, Absorb(spans, r))
  {
    var j :| 0 <= j < |spans| && spans[j].begin <= q.begin && q.end <= spans[j].end;
    var out := Absorb(spans, r);
    assert out[j].begin <= q.begin && q.end <= out[j].end;
  }

  /** The spans of ranges in order. */
  function Spans(rs: seq<CopyRange>): seq<Span> {
    if rs == [] then [] else Absorb(Spans(rs[..|rs| - 1]), rs[|rs| - 1])
  }

  lemma {:induction false} SpansApartInOrder(rs: seq<CopyRange>, limit: nat)
    requires InOrder(rs) && forall i | 0 <= i < |rs| :: rs[i].end <= limit
    ensures SpansApart(Spans(rs), limit) && (Spans(rs) == [] <==> rs == [])
    ensures rs != [] ==> var s := Spans(rs); s[|s| - 1].end == rs[|rs| - 1].end && s[|s| - 1].begin <= rs[|rs| - 1].begin
  {
    if rs != [] {
      SpansApartInOrder(rs[..|rs| - 1], limit);
      AbsorbApart(Spans(rs[..|rs| - 1]), rs[|rs| - 1], limit);
    }
  }

  lemma {:induction false} SpansCover(rs: seq<CopyRange>, limit: nat, i: nat)
    requires InOrder(rs) && (forall j | 0 <= j < |rs| :: rs[j].end <= limit) && i < |rs|
    ensures Inside(rs[i], Spans(rs))
  {
    var n := |rs| - 1;
    if i < n {
      SpansCover(rs[..n], limit, i);
      AbsorbKeeps(Spans(rs[..n]), rs[n], rs[i]);
    } else {
      SpansApartInOrder(rs, limit);
      var s := Spans(rs);
      assert s[|s| - 1].begin <= rs[i].begin && rs[i].end <= s[|s| - 1].end;
    }
  }

  /** Some range has a byte in the block at `b`. */
  ghost predicate Touched(rs: seq<CopyRange>, b: nat) {
    exists i :: 0 <= i < |rs| && rs[i].begin < b + BLOCK && b < rs[i].end
  }

  /** Nothing is read for nothing: every block of a span holds a byte of a range, and a span ends where a range ends. */
  ghost predicate SpansTight(rs: seq<CopyRange>, spans: seq<Span>) {
    && (forall j, b: nat | 0 <= j < |spans| && spans[j].begin <= b < spans[j].end && b % BLOCK == 0 :: Touched(rs, b))
    && (forall j | 0 <= j < |spans| :: exists i :: 0 <= i < |rs| && rs[i].end == spans[j].end)
  }

  lemma TouchedMore(rs: seq<CopyRange>, r: CopyRange, b: nat)
    requires Touched(rs, b) || (r.begin < b + BLOCK && b < r.end)
    ensures Touched(rs + [r], b)
  {
    if Touched(rs, b) {
      var i :| 0 <= i < |rs| && rs[i].begin < b + BLOCK && b < rs[i].end;
      assert (rs + [r])[i] == rs[i];
    } else {
      assert (rs + [r])[|rs|] == r;
    }
  }

  /** A block of the span that `r` goes into was there before or holds a byte of `r`. */
  lemma AbsorbedBlock(spans: seq<Span>, r: CopyRange, j: nat, b: nat)
    requires j < |Absorb(spans, r)| && b % BLOCK == 0 && Absorb(spans, r)[j].begin <= b < Absorb(spans, r)[j].end
    ensures (j < |spans| && spans[j].begin <= b < spans[j].end) || (r.begin < b + BLOCK && b < r.end)
  {
    if j < |spans| && b >= spans[j].end { LeastMultiple(spans[j].end, BLOCK, b); }
  }

  lemma EndsMore(rs: seq<CopyRange>, spans: seq<Span>, r: CopyRange, j: nat)
    requires SpansTight(rs, spans) && j < |Absorb(spans, r)|
    ensures exists i :: 0 <= i < |rs + [r]| && (rs + [r])[i].end == Absorb(spans, r)[j].end
  {
    if j < |spans| && Absorb(spans, r)[j].end == spans[j].end {
      var i :| 0 <= i < |rs| && rs[i].end == spans[j].end;
      assert (rs + [r])[i] == rs[i];
    } else {
      assert (rs + [r])[|rs|] == r;
    }
  }

  lemma {:induction false} SpansAreTight(rs: seq<CopyRange>)
    ensures SpansTight(rs, Spans(rs))
  {
    if rs != [] {
      var n := |rs| - 1;
      var front, r := rs[..n], rs[n];
      SpansAreTight(front);
      assert rs == front + [r];
      forall j, b: nat | 0 <= j < |Spans(rs)| && Spans(rs)[j].begin <= b < Spans(rs)[j].end && b % BLOCK == 0
        ensures Touched(rs, b)
      {
        AbsorbedBlock(Spans(front), r, j, b);
        TouchedMore(front, r, b);
      }
      forall j | 0 <= j < |Spans(rs)| ensures exists i :: 0 <= i < |rs| && rs[i].end == Spans(rs)[j].end {
        EndsMore(front, Spans(front), r, j);
      }
    }
  }

  method MergeSpans(rs: seq<CopyRange>, ghost limit: nat) returns (spans: seq<Span>)
    requires InOrder(rs) && forall i | 0 <= i < |rs| :: rs[i].end <= limit
    ensures spans == Spans(rs)
    ensures SpansApart(spans, limit) && (rs != [] ==> spans != [])
    ensures forall i | 0 <= i < |rs| :: Inside(rs[i], spans)
    ensures SpansTight(rs, spans)
  {
    SpansAreTight(rs);
    spans := [];
    for i := 0 to |rs|
      invariant spans == Spans(rs[..i])
    {
      assert rs[..i + 1][..i] == rs[..i];
      spans := Absorb(spans, rs[i]);
    }
    assert rs[..|rs|] == rs;
    SpansApartInOrder(rs, limit);
    forall i | 0 <= i < |rs| ensures Inside(rs[i], spans) { SpansCover(rs, limit, i); }
  }

  /** The bytes of all blocks that the spans touch. */
  function BlockBytes(spans: seq<Span>): nat {
    if spans == [] then 0 else
    var last := spans[|spans| - 1];
    BlockBytes(spans[..|spans| - 1]) + (if last.begin <= last.end then AlignUp(last.end - last.begin, BLOCK) else 0)
  }

  lemma AtLeastBlock(n: nat)
    requires n > 0 && n % BLOCK == 0
    ensures n >= BLOCK
  {
  }

  /** Each span adds its blocks, from its begin to the end of the block in which it ends, so the sum cannot exceed the
      rounded size of the file. */
  lemma {:induction false} BlockBytesBound(spans: seq<Span>, limit: nat)
    requires SpansApart(spans, limit)
    ensures BlockBytes(spans) % BLOCK == 0
    ensures spans != [] ==> BLOCK <= BlockBytes(spans) <= AlignUp(spans[|spans| - 1].end, BLOCK)
    ensures spans != [] ==>
              var n := |spans| - 1;
              BlockBytes(spans) == BlockBytes(spans[..n]) + (AlignUp(spans[n].end, BLOCK) - spans[n].begin)
  {
    if spans != [] {
      var front, last := spans[..|spans| - 1], spans[|spans| - 1];
      BlockBytesBound(front, limit);
      AlignUpShift(last.begin, last.end - last.begin, BLOCK);
      AddMultiples(BlockBytes(front), AlignUp(last.end - last.begin, BLOCK), BLOCK);
      assert front != [] ==> AlignUp(front[|front| - 1].end, BLOCK) < last.begin;
      AtLeastBlock(AlignUp(last.end - last.begin, BLOCK));
    }
  }

  // ---- What the reads must deliver ----

  function BeginOf(spans: seq<Span>, j: nat): nat {
    if j < |spans| then spans[j].begin else 0
  }

  /** From `source` in span `j` on, the next read being read `at`, every read delivers what it must: a whole slot, or all that
      is left of its span. */
  ghost predicate ReadsMet(spans: seq<Span>, j: nat, source: nat, slotBytes: nat, supply: nat -> nat, at: nat)
    decreases |spans| - j, if j < |spans| then spans[j].end - source else 0
  {
    j >= |spans| || slotBytes == 0 ||
    if source >= spans[j].end then ReadsMet(spans, j + 1, BeginOf(spans, j + 1), slotBytes, supply, at)
    else Min(slotBytes, spans[j].end - source) <= supply(at) && ReadsMet(spans, j, source + slotBytes, slotBytes, supply, at + 1)
  }

  // ---- Byte counts ----

  function Part(r: CopyRange, limit: nat): int {
    (if limit < r.end then limit else r.end) - (if limit < r.begin then limit else r.begin)
  }

  /** How many bytes of the ranges lie below `limit` in the file. */
  function Below(rs: seq<CopyRange>, limit: nat): int {
    if rs == [] then 0 else Part(rs[0], limit) + Below(rs[1..], limit)
  }

  function Total(rs: seq<CopyRange>): int {
    if rs == [] then 0 else (rs[0].end - rs[0].begin) + Total(rs[1..])
  }

  lemma {:induction false} BelowSkip(rs: seq<CopyRange>, a: nat, b: nat)
    requires InOrder(rs) && a <= b && Clear(rs, a, b)
    ensures Below(rs, a) == Below(rs, b)
  {
    if rs != [] { BelowSkip(rs[1..], a, b); }
  }

  lemma {:induction false} BelowPiece(rs: seq<CopyRange>, k: nat, a: nat, b: nat)
    requires InOrder(rs) && k < |rs| && rs[k].begin <= a <= b <= rs[k].end
    ensures Below(rs, b) == Below(rs, a) + (b - a)
  {
    if k > 0 { BelowPiece(rs[1..], k - 1, a, b); } else { BelowSkip(rs[1..], a, b); }
  }

  lemma {:induction false} BelowAll(rs: seq<CopyRange>, limit: nat)
    requires InOrder(rs) && forall i | 0 <= i < |rs| :: rs[i].end <= limit
    ensures Below(rs, limit) == Total(rs)
  {
    if rs != [] { BelowAll(rs[1..], limit); }
  }

  lemma {:induction false} BelowNone(rs: seq<CopyRange>)
    ensures Below(rs, 0) == 0
  {
    if rs != [] { BelowNone(rs[1..]); }
  }

  lemma {:induction false} PlaceTotal(rs: seq<CopyRange>, r: CopyRange)
    ensures Total(Place(rs, r)) == Total(rs) + (r.end - r.begin)
  {
    if rs == [] || r.begin < rs[0].begin {
      assert ([r] + rs)[1..] == rs;
    } else {
      PlaceTotal(rs[1..], r);
      assert ([rs[0]] + Place(rs[1..], r))[1..] == Place(rs[1..], r);
    }
  }

  lemma {:induction false} SortTotal(rs: seq<CopyRange>)
    ensures Total(SortByBegin(rs)) == Total(rs)
  {
    if rs != [] {
      SortTotal(rs[1..]);
      PlaceTotal(SortByBegin(rs[1..]), rs[0]);
    }
  }

  // ---- The finished load ----

  /** Every range's device bytes are its file bytes, written exactly once, and nothing else was touched. */
  ghost predicate Delivered(rs: seq<CopyRange>, file: seq<Byte>, initial: seq<Byte>, m: Memory) {
    && |m.bytes| == |m.writes| == |initial|
    && (forall r, p | r in rs && Covers(r, p) :: Arrived(r, p, file, m) && m.writes[p] == 1)
    && (forall p | 0 <= p < |initial| && (forall r | r in rs :: !Covers(r, p)) ::
          m.bytes[p] == initial[p] && m.writes[p] == 0)
  }

  /** Ranges that fit the device and share no device byte, whatever their order. */
  ghost predicate DestinationsApart(rs: seq<CopyRange>, capacity: nat) {
    && (forall r | r in rs :: r.begin < r.end && r.dest + (r.end - r.begin) <= capacity)
    && (forall q, r, p | q in rs && r in rs && Covers(q, p) && Covers(r, p) :: q == r)
  }

  lemma ApartInOrder(rs: seq<CopyRange>, capacity: nat)
    requires InOrder(rs) && DestinationsApart(rs, capacity)
    ensures Apart(rs, capacity)
  {
    forall i, j, p | 0 <= i < |rs| && 0 <= j < |rs| && Covers(rs[i], p) && Covers(rs[j], p)
      ensures i == j
    {
      assert rs[i] in rs && rs[j] in rs;
      assert rs[i] == rs[j];
    }
  }

  lemma LoadedIsDelivered(rs: seq<CopyRange>, sorted: seq<CopyRange>, file: seq<Byte>, initial: seq<Byte>, limit: nat, m: Memory)
    requires (forall r :: r in rs <==> r in sorted) && forall i | 0 <= i < |sorted| :: sorted[i].end <= limit
    requires Loaded(sorted, file, initial, limit, m)
    ensures Delivered(rs, file, initial, m)
  {
    forall r, p | r in rs && Covers(r, p)
      ensures Arrived(r, p, file, m) && m.writes[p] == 1
    {
      var i :| 0 <= i < |sorted| && sorted[i] == r;
      assert Origin(sorted[i], p) < limit;
      assert Due(sorted, limit, p);
    }
    forall p | 0 <= p < |initial| && (forall r | r in rs :: !Covers(r, p))
      ensures !Due(sorted, limit, p)
    {
      forall i | 0 <= i < |sorted|
        ensures !Covers(sorted[i], p)
      {
        assert sorted[i] in rs;
      }
    }
  }
}

/** Loading tensor bytes from the file to the device through a ring of staging slots. */
module Materializer {
  import opened Alignment
  import opened Bytes
  import opened CopyStream
  import opened CopyRanges

  const SLOT_BYTES: nat := 64 * 1024 * 1024
  const MAX_SLOTS: nat := 4

  /** The ranges before `next` end at or before `limit`, the others after it. */
  ghost predicate Cursor(rs: seq<CopyRange>, next: nat, limit: nat) {
    && next <= |rs| && (next < |rs| ==> limit < rs[next].end)
    && (forall i | 0 <= i < next :: rs[i].end <= limit)
    && (forall i | next <= i < |rs| :: limit < rs[i].end)
  }

  /** A load as it should end: the ranges, the file, and the device bytes before it. */
  datatype Job = Job(rs: seq<CopyRange>, file: seq<Byte>, initial: seq<Byte>)

  ghost predicate JobOk(job: Job) {
    && InOrder(job.rs) && Apart(job.rs, |job.initial|)
    && forall i | 0 <= i < |job.rs| :: job.rs[i].end <= |job.file|
  }

  /** All file bytes below `limit` are on their way, and the counters say so. */
  ghost predicate Reached(job: Job, limit: nat, m: Memory, next: nat, copied: int) {
    && Loaded(job.rs, job.file, job.initial, limit, m) && Cursor(job.rs, next, limit)
    && copied == Below(job.rs, limit)
  }

  lemma ReachedSkip(job: Job, a: nat, b: nat, m: Memory, next: nat, copied: int)
    requires JobOk(job) && Reached(job, a, m, next, copied) && a <= b && Clear(job.rs, a, b)
    ensures Reached(job, b, m, next, copied)
  {
    LoadedSkip(job.rs, job.file, job.initial, a, b, m);
    BelowSkip(job.rs, a, b);
    forall i | next <= i < |job.rs|
      ensures b < job.rs[i].end
    {
      assert job.rs[i].begin < job.rs[i].end;
    }
  }

  /** The copy of piece `[a, b)` of range `next`. */
  lemma ReachedPiece(job: Job, a: nat, b: nat, m: Memory, next: nat, copied: int, slots: seq<seq<Byte>>, c: Copy, source: nat)
    requires JobOk(job) && Reached(job, a, m, next, copied) && next < |job.rs|
    requires source <= a && job.rs[next].begin <= a <= b <= job.rs[next].end
    requires c.slot < |slots| && b - source <= |slots[c.slot]| && slots[c.slot][..b - source] == job.file[source..b]
    requires c.from == a - source && c.amount == b - a && c.to == job.rs[next].dest + (a - job.rs[next].begin)
    ensures Reached(job, b, Run(m, slots, c), if b == job.rs[next].end then next + 1 else next, copied + (b - a))
  {
    LoadedPiece(job.rs, job.file, job.initial, next, a, b, m, slots, c, source);
    BelowPiece(job.rs, next, a, b);
    CursorPiece(job.rs, next, a, b);
  }

  /** Nothing lies between the last copied byte and the next range. */
  lemma ReachedNext(job: Job, limit: nat, a: nat, m: Memory, next: nat, copied: int)
    requires JobOk(job) && Reached(job, limit, m, next, copied) && next < |job.rs|
    requires limit <= a && (limit < a ==> a == job.rs[next].begin)
    ensures Reached(job, a, m, next, copied)
  {
    if limit < a { ReachedSkip(job, limit, a, m, next, copied); }
  }

  lemma CursorPiece(rs: seq<CopyRange>, next: nat, a: nat, b: nat)
    requires InOrder(rs) && Cursor(rs, next, a) && next < |rs| && rs[next].begin <= a <= b <= rs[next].end
    ensures Cursor(rs, if b == rs[next].end then next + 1 else next, b)
  {
  }

  lemma SlotFront(slot: seq<Byte>, file: seq<Byte>, source: nat, a: nat, b: nat)
    requires source <= a <= b <= |file| && file[source..b] <= slot
    ensures slot[..a - source] == file[source..a]
  {
    assert file[source..b][..a - source] == file[source..a];
  }

  /** Enqueues the part of range `next` that lies in the chunk. */
  method CopyPart(stage: Stage, ghost job: Job, r: CopyRange, slot: nat, source: nat, chunkEnd: nat,
                  ghost limit: nat, ghost next: nat, copied: nat)
    returns (copied': nat)
    requires JobOk(job) && stage.Valid(slot) && slot < |stage.slots| && next < |job.rs| && r == job.rs[next]
    requires source <= limit < chunkEnd <= |job.file| && job.file[source..chunkEnd] <= stage.slots[slot]
    requires Reached(job, limit, stage.Outcome(), next, copied)
    requires r.begin < chunkEnd && (limit == source || limit <= r.begin)
    modifies stage`queue, stage`issued, stage`memory
    ensures stage.Valid(slot)
    ensures Reached(job, Min(chunkEnd, r.end), stage.Outcome(), if r.end <= chunkEnd then next + 1 else next, copied')
  {
    var copyBegin, copyEnd := Max(source, r.begin), Min(chunkEnd, r.end);
    copied' := copied;
    if copyBegin < copyEnd {
      var c := Copy(slot, copyBegin - source, copyEnd - copyBegin, r.dest + (copyBegin - r.begin));
      ReachedNext(job, limit, copyBegin, stage.Outcome(), next, copied);
      SlotFront(stage.slots[slot], job.file, source, copyEnd, chunkEnd);
      ReachedPiece(job, copyBegin, copyEnd, stage.Outcome(), next, copied, stage.slots, c, source);
      stage.Enqueue(c);
      copied' := copied + (copyEnd - copyBegin);
    }
    stage.Elapse(slot);
  }

  /** The chunk holds no byte of the remaining ranges. */
  lemma ReachedChunk(job: Job, limit: nat, chunkEnd: nat, m: Memory, next: nat, copied: int)
    requires JobOk(job) && Reached(job, limit, m, next, copied) && limit <= chunkEnd
    requires limit == chunkEnd || (next < |job.rs| ==> chunkEnd <= job.rs[next].begin)
    ensures Reached(job, chunkEnd, m, next, copied)
  {
    if limit < chunkEnd { ReachedSkip(job, limit, chunkEnd, m, next, copied); }
  }

  /** Passes the ranges that end before the chunk. */
  method SkipFinished(rs: seq<CopyRange>, next: nat, source: nat) returns (next': nat)
    requires next <= |rs|
    ensures Cursor(rs, next, source) ==> next' == next
  {
    next' := next;
    while next' < |rs| && rs[next'].end <= source
      invariant next <= next' <= |rs| && forall i | next <= i < next' :: rs[i].end <= source
    {
      next' := next' + 1;
    }
  }

  /** Enqueues the copies of one chunk, `[source, chunkEnd)`, which is at the front of the slot. */
  method Scatter(stage: Stage, ghost job: Job, rs: seq<CopyRange>, slot: nat, source: nat, chunkEnd: nat, next: nat, copied: nat)
    returns (next': nat, copied': nat)
    requires JobOk(job) && rs == job.rs && stage.Valid(slot) && slot < |stage.slots|
    requires source < chunkEnd <= |job.file| && job.file[source..chunkEnd] <= stage.slots[slot]
    requires Reached(job, source, stage.Outcome(), next, copied)
    modifies stage`queue, stage`issued, stage`memory
    ensures stage.Valid(slot)
    ensures Reached(job, chunkEnd, stage.Outcome(), next', copied')
  {
    next' := SkipFinished(rs, next, source);
    copied' := copied;
    ghost var limit := source;
    while next' < |rs| && rs[next'].begin < chunkEnd
      invariant stage.Valid(slot) && source <= limit <= chunkEnd
      invariant Reached(job, limit, stage.Outcome(), next', copied')
      invariant limit == source || (next' < |rs| ==> limit <= rs[next'].begin)
      decreases |rs| - next'
    {
      var r := rs[next'];
      copied' := CopyPart(stage, job, r, slot, source, chunkEnd, limit, next', copied');
      limit := Min(chunkEnd, r.end);
      if r.end <= chunkEnd {
        next' := next' + 1;
      } else {
        break;
      }
    }
    ReachedChunk(job, limit, chunkEnd, stage.Outcome(), next', copied');
  }

  /** `read_direct`: as many of the requested bytes as the file has and the system delivers, at most `most`. */
  method ReadDirect(file: seq<Byte>, offset: nat, size: nat, most: nat) returns (data: seq<Byte>)
    requires Whole(offset) && Whole(size) && offset <= |file|
    ensures |data| == Min(most, Min(size, |file| - offset)) && data == file[offset..offset + |data|]
  {
    data := file[offset..offset + Min(most, Min(size, |file| - offset))];
  }

  /** What a turn of the chunk loop does with the bytes read at `source` into an idle slot. */
  method Deliver(stage: Stage, ghost job: Job, rs: seq<CopyRange>, slot: nat, source: nat, data: seq<Byte>, next: nat, copied: nat)
    returns (next': nat, copied': nat)
    requires JobOk(job) && rs == job.rs && stage.Valid(-1) && slot < |stage.slots| && Idle(stage.queue, slot)
    requires 0 < |data| <= stage.slotBytes && source + |data| <= |job.file| && data == job.file[source..source + |data|]
    requires Reached(job, source, stage.Outcome(), next, copied)
    modifies stage
    ensures |stage.slots| == |old(stage.slots)| && stage.Valid(-1)
    ensures Reached(job, source + |data|, stage.Outcome(), next', copied')
  {
    stage.Fill(slot, data);
    stage.Elapse(slot);
    next', copied' := Scatter(stage, job, rs, slot, source, source + |data|, next, copied);
    stage.Record(slot);
  }

  /** The size of a direct read: whole blocks that fit the slot and stop where the blocks of the span end. */
  method RequestSize(source: nat, end: nat, slotBytes: nat, ghost blockEnd: nat) returns (request: nat)
    requires Whole(source) && Whole(slotBytes) && slotBytes > 0 && source < end
    requires Whole(blockEnd) && end <= blockEnd < end + BLOCK
    ensures Whole(request) && 0 < request <= slotBytes && source + request <= blockEnd
    ensures slotBytes < end - source ==> request == slotBytes
    ensures end - source <= slotBytes ==> end - source <= request
  {
    request := Min(slotBytes, AlignUp(end - source, BLOCK));
    WholeBlocks(source);
    WholeBlocks(blockEnd);
    WholeBlocks(AlignUp(end - source, BLOCK));
    AlignUpShift(source, end - source, BLOCK);
    MultiplesApart(AlignUp(end, BLOCK), blockEnd, BLOCK);
  }

  /** The slots are used in turn. */
  method SlotFor(turn: nat, count: nat) returns (slot: nat)
    requires count > 0
    ensures slot < count
  {
    slot := turn % count;
  }

  /** One turn of the chunk loop; `!ok` means that the read was short. */
  method Turn(stage: Stage, ghost job: Job, file: seq<Byte>, rs: seq<CopyRange>, slot: nat, source: nat, request: nat,
              required: nat, most: nat, next: nat, copied: nat)
    returns (ok: bool, ghost limit: nat, next': nat, copied': nat)
    requires JobOk(job) && file == job.file && rs == job.rs && stage.Valid(-1) && slot < |stage.slots|
    requires Whole(source) && Whole(request) && 0 < required <= request <= stage.slotBytes && source + required <= |file|
    requires Reached(job, source, stage.Outcome(), next, copied)
    modifies stage
    ensures |stage.slots| == |old(stage.slots)|
    ensures ok ==> stage.Valid(-1) && Reached(job, limit, stage.Outcome(), next', copied')
    ensures (ok <==> required <= most) && limit <= source + request && (ok ==> source + required <= limit)
  {
    next', copied' := next, copied;
    stage.AwaitSlot(slot);
    var data := ReadDirect(file, source, request, most);
    limit := source + |data|;
    ok := |data| >= required;
    if ok { next', copied' := Deliver(stage, job, rs, slot, source, data, next, copied); }
  }

  /** What is true whenever no slot is being filled. */
  ghost predicate Rested(stage: Stage, job: Job, limit: nat, next: nat, copied: int)
    reads stage
  {
    && JobOk(job) && stage.Valid(-1) && |stage.slots| > 0 && Whole(stage.slotBytes) && stage.slotBytes > 0
    && Reached(job, limit, stage.Outcome(), next, copied)
  }

  /** What is true between turns on a span. */
  ghost predicate Going(stage: Stage, job: Job, span: Span, blockEnd: nat, source: nat, limit: nat, next: nat, copied: int)
    reads stage
  {
    && Rested(stage, job, limit, next, copied) && Whole(source)
    && span.end <= |job.file| && Whole(blockEnd) && span.end <= blockEnd < span.end + BLOCK
    && (if source < span.end then limit == source else span.end <= limit <= blockEnd)
  }

  /** One turn at `source`: the request, the read and its copies. It fails exactly when the read is short. */
  method SpanTurn(stage: Stage, ghost job: Job, file: seq<Byte>, rs: seq<CopyRange>, turn: nat, spans: seq<Span>, j: nat,
                  source: nat, ghost blockEnd: nat, supply: nat -> nat, next: nat, copied: nat)
    returns (ok: bool, ghost limit: nat, next': nat, copied': nat)
    requires j < |spans| && Going(stage, job, spans[j], blockEnd, source, source, next, copied)
    requires file == job.file && rs == job.rs && source < spans[j].end
    modifies stage
    ensures ReadsMet(spans, j, source, stage.slotBytes, supply, turn) <==>
              ok && ReadsMet(spans, j, source + stage.slotBytes, stage.slotBytes, supply, turn + 1)
    ensures ok ==> Going(stage, job, spans[j], blockEnd, source + stage.slotBytes, limit, next', copied')
  {
    WholeSum(source, stage.slotBytes);
    var slot := SlotFor(turn, |stage.slots|);
    var end := spans[j].end;
    var request := RequestSize(source, end, stage.slotBytes, blockEnd);
    ok, limit, next', copied' :=
      Turn(stage, job, file, rs, slot, source, request, Min(request, end - source), supply(turn), next, copied);
  }

  /** Reads span `j` chunk by chunk; `!ok` means that a read was short. */
  method LoadSpan(stage: Stage, ghost job: Job, file: seq<Byte>, rs: seq<CopyRange>, spans: seq<Span>, j: nat,
                  ghost blockEnd: nat, supply: nat -> nat, nextSlot: nat, next: nat, copied: nat)
    returns (ok: bool, ghost limit: nat, nextSlot': nat, next': nat, copied': nat)
    requires j < |spans| && Going(stage, job, spans[j], blockEnd, spans[j].begin, spans[j].begin, next, copied)
    requires file == job.file && rs == job.rs
    modifies stage
    ensures ok ==> Rested(stage, job, limit, next', copied') && spans[j].end <= limit <= blockEnd
    ensures ReadsMet(spans, j, spans[j].begin, stage.slotBytes, supply, nextSlot) <==>
              ok && ReadsMet(spans, j + 1, BeginOf(spans, j + 1), stage.slotBytes, supply, nextSlot')
  {
    var source := spans[j].begin;
    ghost var met := ReadsMet(spans, j, source, stage.slotBytes, supply, nextSlot);
    limit, nextSlot', next', copied', ok := source, nextSlot, next, copied, true;
    while source < spans[j].end
      invariant Going(stage, job, spans[j], blockEnd, source, limit, next', copied') && ok
      invariant met <==> ReadsMet(spans, j, source, stage.slotBytes, supply, nextSlot')
      decreases spans[j].end - source
    {
      ok, limit, next', copied' :=
        SpanTurn(stage, job, file, rs, nextSlot', spans, j, source, blockEnd, supply, next', copied');
      nextSlot' := nextSlot' + 1;
      if !ok { return; }
      source := source + stage.slotBytes;
    }
  }

  /** The first `j` spans have been read, and no block after them. */
  ghost predicate Passed(spans: seq<Span>, j: nat, limit: nat)
    requires j <= |spans|
  {
    (j > 0 ==> spans[j - 1].end <= limit) && (j < |spans| ==> limit <= spans[j].begin)
  }

  /** Nothing lies between where one span's blocks end and the next span begins. */
  lemma ClearBetween(rs: seq<CopyRange>, spans: seq<Span>, fileSize: nat, j: nat, limit: nat)
    requires SpansApart(spans, fileSize) && j < |spans| && forall i | 0 <= i < |rs| :: Inside(rs[i], spans)
    requires Passed(spans, j, limit)
    ensures limit <= spans[j].begin && Clear(rs, limit, spans[j].begin)
  {
    forall i | 0 <= i < |rs|
      ensures rs[i].end <= limit || spans[j].begin <= rs[i].begin
    {
      assert Inside(rs[i], spans);
      var k :| 0 <= k < |spans| && spans[k].begin <= rs[i].begin && rs[i].end <= spans[k].end;
      if k < j {
        assert k < j - 1 ==> AlignUp(spans[k].end, BLOCK) < spans[j - 1].begin;
      }
    }
  }

  lemma AllBelowLast(rs: seq<CopyRange>, spans: seq<Span>, fileSize: nat, limit: nat)
    requires SpansApart(spans, fileSize) && spans != [] && forall i | 0 <= i < |rs| :: Inside(rs[i], spans)
    requires Passed(spans, |spans|, limit)
    ensures forall i | 0 <= i < |rs| :: rs[i].end <= limit
  {
    forall i | 0 <= i < |rs|
      ensures rs[i].end <= limit
    {
      assert Inside(rs[i], spans);
      var k :| 0 <= k < |spans| && spans[k].begin <= rs[i].begin && rs[i].end <= spans[k].end;
      assert k < |spans| - 1 ==> AlignUp(spans[k].end, BLOCK) < spans[|spans| - 1].begin;
    }
  }

  /** Everything is on its way, so the byte and range counters pass the final check. */
  lemma ReachedEnd(job: Job, limit: nat, m: Memory, next: nat, copied: int)
    requires JobOk(job) && Reached(job, limit, m, next, copied) && forall i | 0 <= i < |job.rs| :: job.rs[i].end <= limit
    ensures next == |job.rs| && copied == Total(job.rs)
  {
    BelowAll(job.rs, limit);
  }

  /** The spans hold every range and stay apart. */
  ghost predicate Spanned(job: Job, spans: seq<Span>) {
    SpansApart(spans, |job.file|) && forall i | 0 <= i < |job.rs| :: Inside(job.rs[i], spans)
  }

  lemma SpansSpanned(job: Job)
    requires JobOk(job)
    ensures Spanned(job, Spans(job.rs))
  {
    SpansApartInOrder(job.rs, |job.file|);
    forall i | 0 <= i < |job.rs| ensures Inside(job.rs[i], Spans(job.rs)) { SpansCover(job.rs, |job.file|, i); }
  }

  /** Where the blocks of span `j` end, before the next span begins. */
  lemma BlocksOf(job: Job, j: nat) returns (blockEnd: nat)
    requires JobOk(job) && j < |Spans(job.rs)|
    ensures var s := Spans(job.rs);
            && Whole(s[j].begin) && s[j].begin < s[j].end <= |job.file|
            && Whole(blockEnd) && s[j].end <= blockEnd < s[j].end + BLOCK && (j + 1 < |s| ==> blockEnd <= s[j + 1].begin)
  {
    SpansSpanned(job);
    blockEnd := AlignUp(Spans(job.rs)[j].end, BLOCK);
    WholeBlocks(Spans(job.rs)[j].begin);
    WholeBlocks(blockEnd);
  }

  /** Nothing has to be copied before span `j` begins. */
  lemma ReachedSpan(job: Job, j: nat, limit: nat, m: Memory, next: nat, copied: int)
    requires JobOk(job) && j < |Spans(job.rs)| && Passed(Spans(job.rs), j, limit) && Reached(job, limit, m, next, copied)
    ensures Reached(job, Spans(job.rs)[j].begin, m, next, copied)
  {
    SpansSpanned(job);
    ClearBetween(job.rs, Spans(job.rs), |job.file|, j, limit);
    ReachedSkip(job, limit, Spans(job.rs)[j].begin, m, next, copied);
  }

  /** Moves on to span `j` and reads it. */
  method LoadNext(stage: Stage, ghost job: Job, file: seq<Byte>, rs: seq<CopyRange>, spans: seq<Span>, j: nat,
                  supply: nat -> nat, ghost limit: nat, nextSlot: nat, next: nat, copied: nat)
    returns (ok: bool, ghost limit': nat, nextSlot': nat, next': nat, copied': nat)
    requires Rested(stage, job, limit, next, copied) && file == job.file && rs == job.rs && spans == Spans(rs)
    requires j < |spans| && Passed(spans, j, limit)
    modifies stage
    ensures ok ==> Rested(stage, job, limit', next', copied') && Passed(spans, j + 1, limit')
    ensures ReadsMet(spans, j, spans[j].begin, stage.slotBytes, supply, nextSlot) <==>
              ok && ReadsMet(spans, j + 1, BeginOf(spans, j + 1), stage.slotBytes, supply, nextSlot')
  {
    ReachedSpan(job, j, limit, stage.Outcome(), next, copied);
    ghost var blockEnd := BlocksOf(job, j);
    ok, limit', nextSlot', next', copied' :=
      LoadSpan(stage, job, file, rs, spans, j, blockEnd, supply, nextSlot, next, copied);
  }

  method LoadSpans(stage: Stage, ghost job: Job, file: seq<Byte>, rs: seq<CopyRange>, spans: seq<Span>, supply: nat -> nat)
    returns (ok: bool, ghost limit: nat, next: nat, copied: nat)
    requires Rested(stage, job, 0, 0, 0) && file == job.file && rs == job.rs && spans == Spans(rs)
    modifies stage
    ensures ok ==> Rested(stage, job, limit, next, copied) && Passed(spans, |spans|, limit)
    ensures ok <==> ReadsMet(spans, 0, BeginOf(spans, 0), stage.slotBytes, supply, 0)
  {
    ghost var met := ReadsMet(spans, 0, BeginOf(spans, 0), stage.slotBytes, supply, 0);
    limit, next, copied, ok := 0, 0, 0, true;
    var nextSlot: nat := 0;
    for j := 0 to |spans|
      invariant Rested(stage, job, limit, next, copied) && Passed(spans, j, limit) && ok
      invariant met <==> ReadsMet(spans, j, BeginOf(spans, j), stage.slotBytes, supply, nextSlot)
    {
      ok, limit, nextSlot, next, copied := LoadNext(stage, job, file, rs, spans, j, supply, limit, nextSlot, next, copied);
      if !ok { return; }
    }
  }

  function SlotBytes(spans: seq<Span>): nat { Min(SLOT_BYTES, BlockBytes(spans)) }

  /** As many slots as there can be turns, at most four. */
  function SlotCount(bytes: nat, slotBytes: nat): (n: nat)
    requires bytes > 0 && slotBytes > 0
    ensures 0 < n <= MAX_SLOTS
  {
    var turns: nat := (bytes - 1) / slotBytes;
    Min(MAX_SLOTS, 1 + turns)
  }

  /** Slots are whole blocks, at most 64 MiB each and at most four. */
  method SlotSizes(spans: seq<Span>, ghost fileSize: nat) returns (slotBytes: nat, slotCount: nat)
    requires SpansApart(spans, fileSize) && spans != []
    ensures slotBytes == SlotBytes(spans) && Whole(slotBytes) && 0 < slotBytes <= SLOT_BYTES && 0 < slotCount <= MAX_SLOTS
  {
    var bytes := BlockBytes(spans);
    BlockBytesBound(spans, fileSize);
    slotBytes := Min(SLOT_BYTES, bytes);
    WholeBlocks(slotBytes);
    slotCount := SlotCount(bytes, slotBytes);
  }

  /** Every read of a load of ranges in order delivers at least the bytes it is required to. */
  ghost predicate EnoughInOrder(rs: seq<CopyRange>, supply: nat -> nat) {
    var spans := Spans(rs);
    ReadsMet(spans, 0, BeginOf(spans, 0), SlotBytes(spans), supply, 0)
  }

  ghost predicate Enough(ranges: seq<CopyRange>, supply: nat -> nat) {
    EnoughInOrder(SortByBegin(ranges), supply)
  }

  datatype Failure = NoTensors | Overlap | ShortRead | NotCovered
  datatype Transfer = Failed(why: Failure) | Done(memory: Memory)

  /** The load of ranges in order. */
  method TransferInOrder(file: seq<Byte>, rs: seq<CopyRange>, total: int, initial: seq<Byte>, supply: nat -> nat) returns (out: Transfer)
    requires rs != [] && JobOk(Job(rs, file, initial)) && total == Total(rs)
    ensures out.Failed? ==> out.why == ShortRead
    ensures out.Done? <==> EnoughInOrder(rs, supply)
    ensures out.Done? ==> Delivered(rs, file, initial, out.memory)
  {
    ghost var job := Job(rs, file, initial);
    var spans := MergeSpans(rs, |file|);
    var slotBytes, slotCount := SlotSizes(spans, |file|);
    var stage := new Stage(initial, slotBytes, slotCount);
    NothingLoaded(rs, file, initial);
    BelowNone(rs);
    var ok, limit, next, copied := LoadSpans(stage, job, file, rs, spans, supply);
    if !ok { return Failed(ShortRead); }
    AllBelowLast(rs, spans, |file|, limit);
    ReachedEnd(job, limit, stage.Outcome(), next, copied);
    LoadedIsDelivered(rs, rs, file, initial, limit, stage.Outcome());
    stage.Synchronize();
    out := if copied != total || next != |rs| then Failed(NotCovered) else Done(stage.memory);
  }

  /** `materialize` from its list of ranges on. Disjoint ranges are loaded if and only if every read delivers what it must;
      then every file byte is in its place, each written exactly once and nothing else touched, however late the copies
      ran, and the coverage check never fails. `supply(n)` bounds what the n-th read delivers. */
  method Load(file: seq<Byte>, ranges: seq<CopyRange>, initial: seq<Byte>, supply: nat -> nat) returns (out: Transfer)
    requires DestinationsApart(ranges, |initial|) && forall r | r in ranges :: r.end <= |file|
    ensures out.Failed? ==> out.why == if ranges == [] then NoTensors else if !Disjoint(ranges) then Overlap else ShortRead
    ensures out.Done? <==> ranges != [] && Disjoint(ranges) && Enough(ranges, supply)
    ensures out.Done? ==> Delivered(ranges, file, initial, out.memory)
  {
    if ranges == [] { return Failed(NoTensors); }
    var total := Total(ranges);
    var rs := SortByBegin(ranges);
    SortAscending(ranges);
    SortTotal(ranges);
    SortDisjoint(ranges);
    InOrderIffDisjoint(rs);
    var ok := NoOverlap(rs);
    if !ok { return Failed(Overlap); }
    ApartInOrder(rs, |initial|);
    assert rs != [] by { assert ranges[0] in rs; }
    out := TransferInOrder(file, rs, total, initial, supply);
  }
}

/** The row-split payload: packed groups in a base, a high and a scale plane. */
module RowSplitLayout {
  import opened Wrappers
  import opened Alignment
  import opened Bytes
  import opened StorageGeometry
  import opened QuantCodes

  // ---- Matrices of bytes ----

  ghost predicate Uniform(rows: seq<seq<Byte>>, w: nat) {
    forall i | 0 <= i < |rows| :: |rows[i]| == w
  }

  /** `reshape(-1)`. */
  function Flat(rows: seq<seq<Byte>>): seq<Byte> {
    if rows == [] then [] else Flat(rows[..|rows| - 1]) + rows[|rows| - 1]
  }

  lemma SliceFits(i: nat, count: nat, w: nat)
    requires i < count
    ensures Times(i, w) + w <= Times(count, w)
  {
    MultiplesOrder(i, count, w);
  }

  /** Row `i` of a plane cut into rows of `w` bytes. */
  function Slice(plane: seq<Byte>, w: nat, i: nat): (r: seq<Byte>)
    requires Times(i, w) + w <= |plane|
    ensures |r| == w
  {
    plane[Times(i, w)..Times(i, w) + w]
  }

  /** `reshape(count, w)`. */
  function Rows(plane: seq<Byte>, w: nat, count: nat): (r: seq<seq<Byte>>)
    requires |plane| == Times(count, w)
    ensures |r| == count && Uniform(r, w)
  {
    seq(count, i requires 0 <= i < count => (SliceFits(i, count, w); Slice(plane, w, i)))
  }

  lemma TimesNext(n: nat, w: nat)
    ensures Times(n + 1, w) == Times(n, w) + w
  {
  }

  lemma {:induction false} FlatSlices(rows: seq<seq<Byte>>, w: nat)
    requires Uniform(rows, w)
    ensures |Flat(rows)| == Times(|rows|, w)
    ensures forall i | 0 <= i < |rows| :: Times(i, w) + w <= |Flat(rows)| && Slice(Flat(rows), w, i) == rows[i]
  {
    if rows != [] {
      var n := |rows| - 1;
      var front := Flat(rows[..n]);
      FlatSlices(rows[..n], w);
      TimesNext(n, w);
      forall i | 0 <= i < |rows|
        ensures Times(i, w) + w <= |Flat(rows)| && Slice(Flat(rows), w, i) == rows[i]
      {
        SliceFits(i, |rows|, w);
        if i < n {
          SliceFits(i, n, w);
          assert Slice(Flat(rows), w, i) == Slice(front, w, i) == rows[..n][i];
        }
      }
    }
  }

  /** Flattening and reshaping are inverse. */
  lemma RowsOfFlat(rows: seq<seq<Byte>>, w: nat)
    requires Uniform(rows, w)
    ensures |Flat(rows)| == Times(|rows|, w) && Rows(Flat(rows), w, |rows|) == rows
  {
    FlatSlices(rows, w);
  }

  // ---- Packing in chunks ----

  /** The loop of both packers: groups are packed in chunks, and the result does not depend on the chunk size. */
  method PackInChunks(pack: seq<int> --> seq<Byte>, codes: seq<seq<int>>, chunk: nat) returns (out: seq<seq<Byte>>)
    requires chunk > 0 && forall i | 0 <= i < |codes| :: pack.requires(codes[i])
    ensures |out| == |codes| && forall i | 0 <= i < |codes| :: out[i] == pack(codes[i])
  {
    out := [];
    var begin: nat := 0;
    while begin < |codes|
      invariant |out| == begin <= |codes| && forall i | 0 <= i < begin :: out[i] == pack(codes[i])
    {
      var end := Min(|codes|, begin + chunk);
      out := out + seq(end - begin, i requires 0 <= i < end - begin => pack(codes[begin + i]));
      begin := end;
    }
  }

  /** `_pack_low_nibbles`. */
  method PackLowNibbles(codes: seq<seq<int>>, chunk: nat) returns (out: seq<seq<Byte>>)
    requires chunk > 0 && forall i | 0 <= i < |codes| :: |codes[i]| % 2 == 0
    ensures |out| == |codes| && forall i | 0 <= i < |codes| :: out[i] == PackLow(codes[i])
  {
    out := PackInChunks(PackLow, codes, chunk);
  }

  /** `_pack_high_bits`. */
  method PackHighBits(f: Format, codes: seq<seq<int>>, chunk: nat) returns (out: seq<seq<Byte>>)
    requires chunk > 0 && forall i | 0 <= i < |codes| :: |codes[i]| == GroupSize(f)
    ensures |out| == |codes| && forall i | 0 <= i < |codes| :: out[i] == PackHigh(f, codes[i])
  {
    out := PackInChunks(g requires |g| == GroupSize(f) => PackHigh(f, g), codes, chunk);
  }

  ghost predicate Groups(f: Format, codes: seq<seq<int>>) {
    forall i | 0 <= i < |codes| :: |codes[i]| == GroupSize(f)
  }

  ghost function PackedBase(f: Format, codes: seq<seq<int>>): (r: seq<seq<Byte>>)
    requires Groups(f, codes)
    ensures |r| == |codes| && Uniform(r, 32)
  {
    seq(|codes|, i requires 0 <= i < |codes| => PackBase(f, codes[i]))
  }

  ghost function PackedHigh(f: Format, codes: seq<seq<int>>): (r: seq<seq<Byte>>)
    requires Groups(f, codes)
    ensures |r| == |codes| && Uniform(r, HighGroupBytes(f))
  {
    seq(|codes|, i requires 0 <= i < |codes| => PackHigh(f, codes[i]))
  }

  /** `_pack_codes`. */
  method PackCodes(f: Format, codes: seq<seq<int>>, lowChunk: nat, highChunk: nat)
    returns (base: seq<seq<Byte>>, high: seq<seq<Byte>>)
    requires lowChunk > 0 && highChunk > 0 && Groups(f, codes)
    ensures base == PackedBase(f, codes) && high == PackedHigh(f, codes)
  {
    if Bits(f) == 8 {
      base := seq(|codes|, i requires 0 <= i < |codes| => PackBase(f, codes[i]));
    } else {
      base := PackLowNibbles(codes, lowChunk);
    }
    if Bits(f) == 4 || Bits(f) == 8 {
      high := seq(|codes|, i => []);
    } else {
      high := PackHighBits(f, codes, highChunk);
    }
    assert high == PackedHigh(f, codes);
  }

  // ---- Planes and payload ----

  /** Three plane spans for one or more rows, without padding between them. */
  datatype RowPlanes = RowPlanes(base: seq<Byte>, high: seq<Byte>, scale: seq<Byte>, rows: nat)

  ghost predicate PlanesFit(g: RowSplit, p: RowPlanes) {
    |p.base| == g.baseBytes && |p.high| == g.highBytes && |p.scale| == g.scaleBytes && p.rows == g.n
  }

  /** Planes follow each other inside the payload. */
  ghost predicate Ordered(g: RowSplit) {
    && g.baseBytes <= g.highOffset && g.highOffset + g.highBytes <= g.scaleOffset
    && g.scaleOffset + g.scaleBytes == g.payloadBytes
  }

  lemma GeometryOrdered(f: Format, n: nat, k: nat)
    ensures Ordered(RowSplitGeometry(f, n, k))
  {
    var row := RowGeometry(f, k);
    PlanesApart(n, row, Times(n, row.baseBytes), Times(n, row.highBytes), Times(n, row.scaleBytes));
  }

  /** `split_row_planes` over all rows. */
  function Split(g: RowSplit, payload: seq<Byte>): RowPlanes
    requires Ordered(g) && |payload| == g.payloadBytes
  {
    RowPlanes(payload[..g.baseBytes], payload[g.highOffset..g.highOffset + g.highBytes],
              payload[g.scaleOffset..g.scaleOffset + g.scaleBytes], g.n)
  }

  function Put(payload: seq<Byte>, at: nat, data: seq<Byte>): (r: seq<Byte>)
    requires at + |data| <= |payload|
    ensures |r| == |payload| && r[at..at + |data|] == data
    ensures forall x | 0 <= x < |r| && !(at <= x < at + |data|) :: r[x] == payload[x]
  {
    payload[..at] + data + payload[at + |data|..]
  }

  /** `assemble_row_planes`: fills a zeroed buffer; splitting it gives the planes back, and padding stays zero. */
  method Assemble(g: RowSplit, p: RowPlanes) returns (payload: Option<seq<Byte>>)
    requires Ordered(g)
    ensures payload.Some? <==> PlanesFit(g, p)
    ensures payload.Some? ==> |payload.value| == g.payloadBytes && Split(g, payload.value) == p
    ensures payload.Some? ==>
              forall x | (g.baseBytes <= x < g.highOffset || g.highOffset + g.highBytes <= x < g.scaleOffset) :: payload.value[x] == 0
  {
    if p.rows != g.n || |p.base| != g.baseBytes || |p.high| != g.highBytes || |p.scale| != g.scaleBytes { return None; }
    var buffer := Put(Zeros(g.payloadBytes), 0, p.base);
    if g.highBytes > 0 { buffer := Put(buffer, g.highOffset, p.high); }
    buffer := Put(buffer, g.scaleOffset, p.scale);
    assert buffer[..g.baseBytes] == p.base;
    assert buffer[g.highOffset..g.highOffset + g.highBytes] == p.high;
    return Some(buffer);
  }

  // ---- Whole payloads ----

  /** Group matrices of a tensor: scale words of two bytes and codes, both in row order. */
  datatype Decoded = Decoded(scales: seq<seq<Byte>>, codes: seq<seq<int>>)

  function GroupCount(f: Format, n: nat, k: nat): nat { Times(n, RowGeometry(f, k).groups) }

  /** The planes of a geometry hold whole groups. */
  lemma PlaneGroups(f: Format, n: nat, k: nat)
    ensures var g := RowSplitGeometry(f, n, k);
            && g.baseBytes == Times(GroupCount(f, n, k), 32) && g.highBytes == Times(GroupCount(f, n, k), HighGroupBytes(f))
            && g.scaleBytes == Times(GroupCount(f, n, k), 2)
  {
    var row := RowGeometry(f, k);
    Associate(n, row.groups, 32);
    Associate(n, row.groups, HighGroupBytes(f));
    Associate(n, row.groups, 2);
  }

  function UnpackAll(f: Format, base: seq<seq<Byte>>, high: seq<seq<Byte>>): (codes: seq<seq<int>>)
    requires |base| == |high| && (forall i | 0 <= i < |base| :: |base[i]| == 32 && |high[i]| == HighGroupBytes(f))
    ensures |codes| == |base|
  {
    seq(|base|, i requires 0 <= i < |base| => UnpackGroup(f, base[i], high[i]))
  }

  /** `_unpack_codes`. */
  function DecodePlanes(f: Format, groups: nat, p: RowPlanes): Decoded
    requires |p.base| == Times(groups, 32) && |p.high| == Times(groups, HighGroupBytes(f)) && |p.scale| == Times(groups, 2)
  {
    Decoded(Rows(p.scale, 2, groups), UnpackAll(f, Rows(p.base, 32, groups), Rows(p.high, HighGroupBytes(f), groups)))
  }

  /** `decode_row_split_codes`; `None` is a payload of the wrong size. */
  function Decode(f: Format, n: nat, k: nat, payload: seq<Byte>): Option<Decoded> {
    var g := RowSplitGeometry(f, n, k);
    GeometryOrdered(f, n, k);
    PlaneGroups(f, n, k);
    if |payload| != g.payloadBytes then None else Some(DecodePlanes(f, GroupCount(f, n, k), Split(g, payload)))
  }

  ghost function WrappedAll(f: Format, codes: seq<seq<int>>): seq<seq<int>> {
    seq(|codes|, i requires 0 <= i < |codes| => seq(|codes[i]|, j requires 0 <= j < |codes[i]| => Wrapped(f, codes[i][j])))
  }

  ghost predicate AllInRange(f: Format, codes: seq<seq<int>>) {
    forall i, j | 0 <= i < |codes| && 0 <= j < |codes[i]| :: InRange(f, codes[i][j])
  }

  lemma UnpackPacked(f: Format, codes: seq<seq<int>>)
    requires Groups(f, codes)
    ensures UnpackAll(f, PackedBase(f, codes), PackedHigh(f, codes)) == WrappedAll(f, codes)
  {
    forall i | 0 <= i < |codes|
      ensures UnpackGroup(f, PackBase(f, codes[i]), PackHigh(f, codes[i])) == WrappedAll(f, codes)[i]
    {
      GroupRoundTrip(f, codes[i]);
    }
  }

  lemma WrappedAllExact(f: Format, codes: seq<seq<int>>)
    ensures WrappedAll(f, codes) == codes <==> AllInRange(f, codes)
  {
    var w := WrappedAll(f, codes);
    forall i, j | 0 <= i < |codes| && 0 <= j < |codes[i]|
      ensures w[i][j] == codes[i][j] <==> InRange(f, codes[i][j])
    {
      WrappedExact(f, codes[i][j]);
    }
    if AllInRange(f, codes) {
      forall i | 0 <= i < |codes| ensures w[i] == codes[i] { }
    }
  }

  /** Row `i` of a plane that begins at `at`, in rows of `w` bytes; empty where the payload is too short. */
  function RowAt(payload: seq<Byte>, at: nat, w: nat, i: nat): seq<Byte> {
    var begin := at + Times(i, w);
    if begin + w <= |payload| then payload[begin..begin + w] else []
  }

  /** Group `q` of a stored payload: its codes bit by bit in the base and the high plane, and its scale word. */
  ghost predicate GroupStoredAt(f: Format, g: RowSplit, payload: seq<Byte>, q: nat, codes: seq<int>, scale: seq<Byte>) {
    var base, high := RowAt(payload, 0, 32, q), RowAt(payload, g.highOffset, HighGroupBytes(f), q);
    && |base| == 32 && |high| == HighGroupBytes(f) && StoredCodes(f, base, high, codes)
    && RowAt(payload, g.scaleOffset, 2, q) == scale
  }

  lemma FlatSlice(rows: seq<seq<Byte>>, w: nat, i: nat)
    requires Uniform(rows, w) && i < |rows|
    ensures Times(i, w) + w <= |Flat(rows)| && Slice(Flat(rows), w, i) == rows[i]
  {
    FlatSlices(rows, w);
  }

  lemma PlaneRow(payload: seq<Byte>, at: nat, rows: seq<seq<Byte>>, w: nat, i: nat)
    requires Uniform(rows, w) && i < |rows|
    requires at + |Flat(rows)| <= |payload| && payload[at..at + |Flat(rows)|] == Flat(rows)
    ensures RowAt(payload, at, w, i) == rows[i]
  {
    FlatSlice(rows, w, i);
    Subslice(payload, at, |Flat(rows)|, Times(i, w), w);
  }

  lemma GroupCut(f: Format, g: RowSplit, payload: seq<Byte>, bases: seq<seq<Byte>>, highs: seq<seq<Byte>>,
                 scales: seq<seq<Byte>>, q: nat, codes: seq<int>)
    requires q < |bases| == |highs| == |scales| && Ordered(g) && |payload| == g.payloadBytes
    requires Uniform(bases, 32) && Uniform(highs, HighGroupBytes(f)) && Uniform(scales, 2)
    requires Split(g, payload) == RowPlanes(Flat(bases), Flat(highs), Flat(scales), g.n)
    requires StoredCodes(f, bases[q], highs[q], codes)
    ensures GroupStoredAt(f, g, payload, q, codes, scales[q])
  {
    assert payload[0..0 + g.baseBytes] == payload[..g.baseBytes];
    PlaneRow(payload, 0, bases, 32, q);
    PlaneRow(payload, g.highOffset, highs, HighGroupBytes(f), q);
    PlaneRow(payload, g.scaleOffset, scales, 2, q);
  }

  lemma GroupLaid(f: Format, g: RowSplit, payload: seq<Byte>, codes: seq<seq<int>>, scales: seq<seq<Byte>>, q: nat)
    requires Groups(f, codes) && |scales| == |codes| && Uniform(scales, 2) && q < |codes|
    requires Ordered(g) && |payload| == g.payloadBytes
    requires Split(g, payload) == RowPlanes(Flat(PackedBase(f, codes)), Flat(PackedHigh(f, codes)), Flat(scales), g.n)
    ensures GroupStoredAt(f, g, payload, q, codes[q], scales[q])
  {
    GroupStored(f, codes[q]);
    GroupCut(f, g, payload, PackedBase(f, codes), PackedHigh(f, codes), scales, q, codes[q]);
  }

  /** `encode_row_split`: decoding gives back the scales and, code by code, what the width can hold; everything comes
      back exactly when every code is in range. */
  method Encode(f: Format, n: nat, k: nat, codes: seq<seq<int>>, scales: seq<seq<Byte>>, lowChunk: nat, highChunk: nat)
    returns (payload: seq<Byte>)
    requires lowChunk > 0 && highChunk > 0 && n > 0 && k > 0
    requires |codes| == |scales| == GroupCount(f, n, k) && Groups(f, codes) && Uniform(scales, 2)
    ensures Decode(f, n, k, payload) == Some(Decoded(scales, WrappedAll(f, codes)))
    ensures Decode(f, n, k, payload) == Some(Decoded(scales, codes)) <==> AllInRange(f, codes)
    ensures forall q | 0 <= q < |codes| :: GroupStoredAt(f, RowSplitGeometry(f, n, k), payload, q, codes[q], scales[q])
  {
    var base, high := PackCodes(f, codes, lowChunk, highChunk);
    RowsOfFlat(base, 32);
    RowsOfFlat(high, HighGroupBytes(f));
    RowsOfFlat(scales, 2);
    PlaneGroups(f, n, k);
    GeometryOrdered(f, n, k);
    var out := Assemble(RowSplitGeometry(f, n, k), RowPlanes(Flat(base), Flat(high), Flat(scales), n));
    payload := out.value;
    forall q | 0 <= q < |codes| ensures GroupStoredAt(f, RowSplitGeometry(f, n, k), payload, q, codes[q], scales[q]) {
      GroupLaid(f, RowSplitGeometry(f, n, k), payload, codes, scales, q);
    }
    UnpackPacked(f, codes);
    WrappedAllExact(f, codes);
  }

  // ---- Selecting rows ----

  lemma Distribute(r: nat, gp: nat, j: nat, w: nat)
    ensures Times(Times(r, gp) + j, w) == Times(r, Times(gp, w)) + Times(j, w)
  {
    assert (r * gp + j) * w == (r * gp) * w + j * w;
    Associate(r, gp, w);
  }

  /** Group `j` of row `r` is the same whether the plane is cut into groups or first into rows. */
  lemma GroupOfRow(plane: seq<Byte>, w: nat, gp: nat, n: nat, r: nat, j: nat)
    requires |plane| == Times(Times(n, gp), w) && r < n && j < gp
    ensures Times(r, gp) + j < Times(n, gp) && Times(r, Times(gp, w)) + Times(gp, w) <= |plane|
    ensures Rows(plane, w, Times(n, gp))[Times(r, gp) + j] == Rows(Slice(plane, Times(gp, w), r), w, gp)[j]
  {
    SliceFits(r, n, gp);
    Associate(n, gp, w);
    SliceFits(r, n, Times(gp, w));
    SliceFits(j, gp, w);
    Distribute(r, gp, j, w);
    SliceFits(Times(r, gp) + j, Times(n, gp), w);
    Subslice(plane, Times(r, Times(gp, w)), Times(gp, w), Times(j, w), w);
  }

  predicate RowsExist(rows: seq<nat>, n: nat) {
    forall t | 0 <= t < |rows| :: rows[t] < n
  }

  function SliceOf(plane: seq<Byte>, rowBytes: nat, n: nat, r: nat): (s: seq<Byte>)
    requires |plane| == Times(n, rowBytes) && r < n
    ensures |s| == rowBytes
  {
    SliceFits(r, n, rowBytes);
    Slice(plane, rowBytes, r)
  }

  /** `gather_bytes`: the named rows of one plane, joined. */
  function GatherPlane(plane: seq<Byte>, rowBytes: nat, n: nat, rows: seq<nat>): seq<Byte>
    requires |plane| == Times(n, rowBytes) && RowsExist(rows, n)
  {
    Flat(seq(|rows|, t requires 0 <= t < |rows| => SliceOf(plane, rowBytes, n, rows[t])))
  }

  lemma GatheredRow(plane: seq<Byte>, rowBytes: nat, n: nat, rows: seq<nat>, t: nat)
    requires |plane| == Times(n, rowBytes) && RowsExist(rows, n) && t < |rows|
    ensures var out := GatherPlane(plane, rowBytes, n, rows);
            && |out| == Times(|rows|, rowBytes) && Times(t, rowBytes) + rowBytes <= |out|
            && Slice(out, rowBytes, t) == SliceOf(plane, rowBytes, n, rows[t])
  {
    FlatSlices(seq(|rows|, i requires 0 <= i < |rows| => SliceOf(plane, rowBytes, n, rows[i])), rowBytes);
  }

  lemma GatheredSize(plane: seq<Byte>, rowBytes: nat, n: nat, rows: seq<nat>)
    requires |plane| == Times(n, rowBytes) && RowsExist(rows, n)
    ensures |GatherPlane(plane, rowBytes, n, rows)| == Times(|rows|, rowBytes)
  {
    FlatSlices(seq(|rows|, i requires 0 <= i < |rows| => SliceOf(plane, rowBytes, n, rows[i])), rowBytes);
  }

  /** Gathering rows of a plane gathers their groups. */
  lemma GatheredGroup(plane: seq<Byte>, w: nat, gp: nat, n: nat, rows: seq<nat>, t: nat, j: nat)
    requires |plane| == Times(n, Times(gp, w)) && RowsExist(rows, n) && t < |rows| && j < gp
    ensures var out := GatherPlane(plane, Times(gp, w), n, rows);
            && |plane| == Times(Times(n, gp), w) && |out| == Times(Times(|rows|, gp), w)
            && Times(t, gp) + j < Times(|rows|, gp) && Times(rows[t], gp) + j < Times(n, gp)
            && Rows(out, w, Times(|rows|, gp))[Times(t, gp) + j] == Rows(plane, w, Times(n, gp))[Times(rows[t], gp) + j]
  {
    Associate(n, gp, w);
    Associate(|rows|, gp, w);
    GatheredRow(plane, Times(gp, w), n, rows, t);
    GroupOfRow(plane, w, gp, n, rows[t], j);
    GroupOfRow(GatherPlane(plane, Times(gp, w), n, rows), w, gp, |rows|, t, j);
  }

  /** `gather_row_planes`; `None` is an index out of range or no row at all. */
  function Gather(f: Format, n: nat, k: nat, payload: seq<Byte>, rows: seq<nat>): Option<RowPlanes> {
    var g := RowSplitGeometry(f, n, k);
    GeometryOrdered(f, n, k);
    if |payload| != g.payloadBytes || rows == [] || !RowsExist(rows, n) then None else
    var p := Split(g, payload);
    Some(RowPlanes(GatherPlane(p.base, g.row.baseBytes, n, rows), GatherPlane(p.high, g.row.highBytes, n, rows),
                   GatherPlane(p.scale, g.row.scaleBytes, n, rows), |rows|))
  }

  /** Gathered planes fit the geometry of a tensor with that many rows. */
  lemma GatherFits(f: Format, n: nat, k: nat, payload: seq<Byte>, rows: seq<nat>)
    requires Gather(f, n, k, payload, rows).Some?
    ensures PlanesFit(RowSplitGeometry(f, |rows|, k), Gather(f, n, k, payload, rows).value)
  {
    var g := RowSplitGeometry(f, n, k);
    GeometryOrdered(f, n, k);
    var p := Split(g, payload);
    GatheredSize(p.base, g.row.baseBytes, n, rows);
    GatheredSize(p.high, g.row.highBytes, n, rows);
    GatheredSize(p.scale, g.row.scaleBytes, n, rows);
  }

  /** Decoding gathered rows gives the selected rows of the decoded tensor, whatever rows are named and in whatever order. */
  lemma GatherDecodes(f: Format, n: nat, k: nat, payload: seq<Byte>, rows: seq<nat>, t: nat, j: nat)
    requires Gather(f, n, k, payload, rows).Some? && t < |rows| && j < RowGeometry(f, k).groups
    ensures var gp := RowGeometry(f, k).groups;
            var p := Gather(f, n, k, payload, rows).value;
            && |p.base| == Times(Times(|rows|, gp), 32) && |p.high| == Times(Times(|rows|, gp), HighGroupBytes(f))
            && |p.scale| == Times(Times(|rows|, gp), 2) && Decode(f, n, k, payload).Some?
            && var some, all := DecodePlanes(f, Times(|rows|, gp), p), Decode(f, n, k, payload).value;
               && Times(t, gp) + j < |some.codes| && Times(t, gp) + j < |some.scales|
               && Times(rows[t], gp) + j < |all.codes| && Times(rows[t], gp) + j < |all.scales|
               && some.codes[Times(t, gp) + j] == all.codes[Times(rows[t], gp) + j]
               && some.scales[Times(t, gp) + j] == all.scales[Times(rows[t], gp) + j]
  {
    var g, gp := RowSplitGeometry(f, n, k), RowGeometry(f, k).groups;
    GeometryOrdered(f, n, k);
    PlaneGroups(f, n, k);
    var p := Split(g, payload);
    GatheredGroup(p.base, 32, gp, n, rows, t, j);
    GatheredGroup(p.high, HighGroupBytes(f), gp, n, rows, t, j);
    GatheredGroup(p.scale, 2, gp, n, rows, t, j);
  }
}

/** Plane geometry of the tensor layouts, in unbounded integers and in checked 64-bit arithmetic. */
module StorageGeometry {
  import opened Wrappers
  import opened Alignment
  import opened Bytes

  const PLANE_ALIGNMENT: nat := 256
  const K_ALIGNMENT: nat := 128

  datatype Format = Q4G64 | Q5G64 | Q6G64 | W8G32

  function Bits(f: Format): nat {
    match f case Q4G64 => 4 case Q5G64 => 5 case Q6G64 => 6 case W8G32 => 8
  }

  function GroupSize(f: Format): nat { if f.W8G32? then 32 else 64 }

  /** Bytes of one group in the base plane. */
  function BaseGroupBytes(f: Format): (b: nat)
    ensures b == 32
  {
    if Bits(f) == 8 then GroupSize(f) else GroupSize(f) / 2
  }

  /** Bytes of one group in the high plane. */
  function HighGroupBytes(f: Format): nat {
    if Bits(f) == 4 || Bits(f) == 8 then 0 else GroupSize(f) * (Bits(f) - 4) / 8
  }

  /** Sizes of one row. */
  datatype Row = Row(k: nat, kPad: nat, groups: nat, baseBytes: nat, highBytes: nat, scaleBytes: nat)

  function RowGeometry(f: Format, k: nat): Row {
    var kPad := AlignUp(k, K_ALIGNMENT);
    var groups := if f.W8G32? then kPad / 32 else kPad / 64;
    Row(k, kPad, groups, groups * BaseGroupBytes(f), Times(groups, HighGroupBytes(f)), groups * 2)
  }

  function Times(a: nat, b: nat): nat { a * b }

  /** Groups tile the padded row exactly. */
  lemma GroupsTile(f: Format, k: nat)
    ensures var r := RowGeometry(f, k);
            r.groups * GroupSize(f) == r.kPad && k <= r.kPad < k + K_ALIGNMENT && r.kPad % K_ALIGNMENT == 0
  {
    var kPad := AlignUp(k, K_ALIGNMENT);
    var q := kPad / 128;
    Quotient(kPad, 2 * q, 0, 64);
    Quotient(kPad, 4 * q, 0, 32);
  }

  datatype RowSplit = RowSplit(
    n: nat, row: Row, baseBytes: nat, highOffset: nat, highBytes: nat, scaleOffset: nat, scaleBytes: nat, payloadBytes: nat)

  /** Three planes after each other, each on the plane alignment. */
  function Planes(n: nat, row: Row, base: nat, high: nat, scale: nat): RowSplit {
    var highOffset := AlignUp(base, PLANE_ALIGNMENT);
    var scaleOffset := highOffset + AlignUp(high, PLANE_ALIGNMENT);
    RowSplit(n, row, base, highOffset, high, scaleOffset, scale, scaleOffset + scale)
  }

  /** `row_split_geometry` of the Python tools. */
  function RowSplitGeometry(f: Format, n: nat, k: nat): RowSplit {
    var row := RowGeometry(f, k);
    Planes(n, row, Times(n, row.baseBytes), Times(n, row.highBytes), Times(n, row.scaleBytes))
  }

  /** Planes are aligned, in order, disjoint and inside the payload, with less than one alignment of padding each. */
  lemma PlanesApart(n: nat, row: Row, base: nat, high: nat, scale: nat)
    ensures var g := Planes(n, row, base, high, scale);
            && g.highOffset % PLANE_ALIGNMENT == 0 && g.scaleOffset % PLANE_ALIGNMENT == 0
            && g.baseBytes <= g.highOffset && g.highOffset + g.highBytes <= g.scaleOffset
            && g.scaleOffset + g.scaleBytes == g.payloadBytes
            && g.highOffset < g.baseBytes + PLANE_ALIGNMENT && g.scaleOffset < g.highOffset + g.highBytes + PLANE_ALIGNMENT
  {
    var g := Planes(n, row, base, high, scale);
    AddMultiples(g.highOffset, AlignUp(high, PLANE_ALIGNMENT), PLANE_ALIGNMENT);
  }

  datatype BlockScale = BlockScale(
    n: nat, k: nat, groupsPerRow: nat, kTiles: nat, codeBytes: nat, scaleOffset: nat, scaleBytes: nat, divisorOffset: nat,
    payloadBytes: nat)

  /** `block_scale_geometry`; `None` is a shape that does not tile. */
  function BlockScaleGeometry(n: nat, k: nat): Option<BlockScale> {
    if n == 0 || k == 0 || n % 128 != 0 || k % 64 != 0 then None else
    var scaleOffset := AlignUp(Times(n, k) / 2, PLANE_ALIGNMENT);
    var divisorOffset := scaleOffset + Times(n, k) / 16;
    Some(BlockScale(n, k, k / 16, k / 64, Times(n, k) / 2, scaleOffset, Times(n, k) / 16, divisorOffset, divisorOffset + 4))
  }

  datatype RowScale = RowScale(n: nat, k: nat, codeBytes: nat, scaleOffset: nat, scaleBytes: nat, payloadBytes: nat)

  function RowScaleGeometry(n: nat, k: nat): RowScale {
    var scaleOffset := AlignUp(Times(n, k), PLANE_ALIGNMENT);
    RowScale(n, k, Times(n, k), scaleOffset, n * 2, scaleOffset + n * 2)
  }

  // ---- Checked 64-bit arithmetic ----

  /** `checked_add`; `None` is an `ArtifactError`, and so is any sum of one. */
  function Add64(a: Option<nat>, b: Option<nat>): (r: Option<nat>)
    ensures r == if a.Some? && b.Some? && a.value + b.value <= U64_MAX then Some(a.value + b.value) else None
  {
    if a.None? || b.None? || a.value > U64_MAX || b.value > U64_MAX - a.value then None else Some(a.value + b.value)
  }

  /** `checked_mul`. */
  function Mul64(a: Option<nat>, b: nat): (r: Option<nat>)
    ensures r == if a.Some? && Times(a.value, b) <= U64_MAX then Some(Times(a.value, b)) else None
  {
    if a.None? || (a.value != 0 && (Mul64Fits(a.value, b); b > U64_MAX / a.value)) then None else Some(a.value * b)
  }

  /** The division test catches exactly the products that do not fit. */
  lemma Mul64Fits(a: nat, b: nat)
    requires a != 0
    ensures b > U64_MAX / a <==> a * b > U64_MAX
  {
    var q := U64_MAX / a;
    assert q * a <= U64_MAX < q * a + a;
    if b > q { MultiplesOrder(q, b, a); }
    if b < q { MultiplesOrder(b, q, a); }
  }

  /** `align_up`. */
  function Align64(v: Option<nat>, a: nat): (r: Option<nat>)
    requires a > 0
    ensures r == if v.Some? && v.value + (a - 1) <= U64_MAX then Some(AlignUp(v.value, a)) else None
  {
    var biased := Add64(v, Some(a - 1));
    if biased.None? then None else Some(biased.value / a * a)
  }

  /** `row_split_geometry` of the C++ reader; `None` is an exception. */
  function CheckedRowSplit(f: Format, n: nat, k: nat): Option<RowSplit> {
    if n == 0 || k == 0 then None else
    var kPad := Align64(Some(k), K_ALIGNMENT);
    if kPad.None? then None else
    var perRow := if f.W8G32? then kPad.value / 32 else kPad.value / 64;
    var groups := Mul64(Some(n), perRow);
    var base, high, scale := Mul64(groups, 32), Mul64(groups, HighGroupBytes(f)), Mul64(groups, 2);
    var highOffset := Align64(base, PLANE_ALIGNMENT);
    var scaleOffset := Add64(highOffset, Align64(high, PLANE_ALIGNMENT));
    var encoded := Add64(scaleOffset, scale);
    if encoded.None? then None else
    Some(RowSplit(n, RowGeometry(f, k), base.value, highOffset.value, high.value, scaleOffset.value, scale.value, encoded.value))
  }

  lemma Associate(n: nat, g: nat, c: nat)
    ensures Times(Times(n, g), c) == Times(n, Times(g, c))
  {
  }

  /** Plane sizes by groups and by rows are the same products. */
  lemma PlaneProducts(f: Format, n: nat, k: nat)
    ensures var row, groups := RowGeometry(f, k), Times(n, RowGeometry(f, k).groups);
            && Times(groups, 32) == Times(n, row.baseBytes) && Times(groups, HighGroupBytes(f)) == Times(n, row.highBytes)
            && Times(groups, 2) == Times(n, row.scaleBytes) && groups <= Times(groups, 32)
  {
    var row := RowGeometry(f, k);
    Associate(n, row.groups, 32);
    Associate(n, row.groups, HighGroupBytes(f));
    Associate(n, row.groups, 2);
  }

  /** Whenever the checked geometry returns it is the unbounded one; it throws only for empty shapes or near 2^64. */
  lemma RowSplitAgree(f: Format, n: nat, k: nat)
    ensures var c := CheckedRowSplit(f, n, k);
            var g := RowSplitGeometry(f, n, k);
            && (c.Some? ==> c.value == g)
            && (n > 0 && k > 0 && k + 127 <= U64_MAX && g.payloadBytes + 255 <= U64_MAX ==> c.Some?)
  {
    var row := RowGeometry(f, k);
    PlaneProducts(f, n, k);
    PlanesApart(n, row, Times(n, row.baseBytes), Times(n, row.highBytes), Times(n, row.scaleBytes));
  }

  /** `block_scale_geometry` of the C++ reader. */
  function CheckedBlockScale(n: nat, k: nat): Option<BlockScale> {
    if n == 0 || k == 0 || n % 128 != 0 || k % 64 != 0 then None else
    var elements := Mul64(Some(n), k);
    if elements.None? then None else
    var scaleOffset := Align64(Some(elements.value / 2), PLANE_ALIGNMENT);
    var divisorOffset := Add64(scaleOffset, Some(elements.value / 16));
    var encoded := Add64(divisorOffset, Some(4));
    if encoded.None? then None else
    Some(BlockScale(n, k, k / 16, k / 64, elements.value / 2, scaleOffset.value, elements.value / 16, divisorOffset.value, encoded.value))
  }

  lemma BlockScaleAgree(n: nat, k: nat)
    ensures var c := CheckedBlockScale(n, k);
            var g := BlockScaleGeometry(n, k);
            && (c.Some? ==> c == g)
            && (g.Some? && Times(n, k) + 255 <= U64_MAX && g.value.payloadBytes <= U64_MAX ==> c.Some?)
    ensures var g := BlockScaleGeometry(n, k);
            g.Some? ==>
              && g.value.codeBytes <= g.value.scaleOffset && g.value.scaleOffset % PLANE_ALIGNMENT == 0
              && g.value.scaleOffset + g.value.scaleBytes == g.value.divisorOffset
              && g.value.divisorOffset + 4 == g.value.payloadBytes
  {
  }

  /** `row_scale_geometry` of the C++ reader. */
  function CheckedRowScale(n: nat, k: nat): Option<RowScale> {
    if n == 0 || k == 0 then None else
    var codes := Mul64(Some(n), k);
    var scaleOffset := Align64(codes, PLANE_ALIGNMENT);
    var scale := Mul64(Some(n), 2);
    var encoded := Add64(scaleOffset, scale);
    if encoded.None? then None else
    Some(RowScale(n, k, codes.value, scaleOffset.value, scale.value, encoded.value))
  }

  lemma RowScaleAgree(n: nat, k: nat)
    ensures var c := CheckedRowScale(n, k);
            var g := RowScaleGeometry(n, k);
            && (c.Some? ==> c.value == g)
            && (n > 0 && k > 0 && g.payloadBytes + 255 <= U64_MAX ==> c.Some?)
            && g.codeBytes <= g.scaleOffset && g.scaleOffset % PLANE_ALIGNMENT == 0
            && g.scaleOffset + g.scaleBytes == g.payloadBytes
  {
  }

  predicate Positive(shape: seq<nat>) {
    forall i | 0 <= i < |shape| :: shape[i] > 0
  }

  /** `tensor_encoded_size` of a contiguous tensor: exact, or an error exactly when the shape is not acceptable or the
      element count or the size does not fit. */
  method ContiguousSize(shape: seq<nat>, wordBytes: nat) returns (r: Option<nat>)
    ensures r == if |shape| <= 16 && Positive(shape) && Product(shape) <= U64_MAX && Times(Product(shape), wordBytes) <= U64_MAX
                 then Some(Times(Product(shape), wordBytes)) else None
  {
    if |shape| > 16 { return None; }
    var elements := Some(1);
    for i := 0 to |shape|
      invariant elements == Some(Product(shape[..i])) && elements.value <= U64_MAX && Positive(shape[..i])
    {
      if shape[i] == 0 { return None; }
      elements := Mul64(elements, shape[i]);
      assert shape[..i + 1][..i] == shape[..i];
      if elements.None? {
        if Positive(shape) { ProductGrows(shape, i + 1); }
        return None;
      }
    }
    assert shape[..|shape|] == shape;
    r := Mul64(elements, wordBytes);
  }

  function Product(shape: seq<nat>): nat {
    if shape == [] then 1 else Times(Product(shape[..|shape| - 1]), shape[|shape| - 1])
  }

  lemma TimesGrows(a: nat, b: nat)
    requires b > 0
    ensures a <= Times(a, b)
  {
  }

  lemma {:induction false} ProductGrows(shape: seq<nat>, i: nat)
    requires i <= |shape| && forall j | i <= j < |shape| :: shape[j] > 0
    ensures Product(shape[..i]) <= Product(shape)
  {
    var last := |shape| - 1;
    if i <= last {
      assert shape[..last][..i] == shape[..i];
      ProductGrows(shape[..last], i);
      TimesGrows(Product(shape[..last]), shape[last]);
    } else {
      assert shape[..i] == shape;
    }
  }
}

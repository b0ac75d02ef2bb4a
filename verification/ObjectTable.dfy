/** The object directory of an artifact: named, aligned, disjoint extents of the payload area. */
module ObjectTable {
  import opened Wrappers
  import opened Bytes
  import opened StorageGeometry

  datatype Kind = Tensor | Resource

  datatype Word = BF16 | FP32 | I32

  /** Layout, format and shape of a tensor, or the encoding of a resource. */
  datatype Contract =
    | Contiguous(word: Word, shape: seq<nat>)
    | RowSplitK128(format: Format, shape: seq<nat>)
    | BlockScaleK16(shape: seq<nat>)
    | RowScaleV1(shape: seq<nat>)
    | RawBytes

  function KindOf(c: Contract): Kind { if c.RawBytes? then Resource else Tensor }

  function WordBytes(w: Word): nat { if w.BF16? then 2 else 4 }

  predicate Rank2(shape: seq<nat>) { |shape| == 2 && shape[0] > 0 && shape[1] > 0 }

  /** `encoded_size`; `None` is a shape that the layout refuses, or a resource, whose size is its own. */
  function EncodedSize(c: Contract): Option<nat> {
    match c
    case Contiguous(word, shape) =>
      if |shape| > 16 || !Positive(shape) then None else Some(Times(Product(shape), WordBytes(word)))
    case RowSplitK128(format, shape) =>
      if !Rank2(shape) then None else Some(RowSplitGeometry(format, shape[0], shape[1]).payloadBytes)
    case BlockScaleK16(shape) =>
      if !Rank2(shape) || BlockScaleGeometry(shape[0], shape[1]).None? then None
      else Some(BlockScaleGeometry(shape[0], shape[1]).value.payloadBytes)
    case RowScaleV1(shape) =>
      if !Rank2(shape) then None else Some(RowScaleGeometry(shape[0], shape[1]).payloadBytes)
    case RawBytes => None
  }

  lemma PositiveTimes(a: nat, b: nat)
    requires a > 0 && b > 0
    ensures Times(a, b) > 0
  {
  }

  lemma {:induction false} ProductPositive(shape: seq<nat>)
    requires Positive(shape)
    ensures Product(shape) > 0
  {
    if shape != [] {
      ProductPositive(shape[..|shape| - 1]);
      PositiveTimes(Product(shape[..|shape| - 1]), shape[|shape| - 1]);
    }
  }

  /** No layout encodes an acceptable shape in zero bytes. */
  lemma EncodedPositive(c: Contract)
    requires EncodedSize(c).Some?
    ensures EncodedSize(c).value > 0
  {
    match c
    case Contiguous(word, shape) =>
      ProductPositive(shape);
      PositiveTimes(Product(shape), WordBytes(word));
    case RowSplitK128(format, shape) =>
      GroupsTile(format, shape[1]);
      PositiveTimes(shape[0], RowGeometry(format, shape[1]).scaleBytes);
    case _ =>
  }

  /** `tensor_encoded_size` of the C++ reader; `None` is an `ArtifactError`. */
  method TensorEncodedSize(c: Contract) returns (r: Option<nat>)
    ensures r.Some? ==> r == EncodedSize(c)
    ensures EncodedSize(c).Some? && 2 * EncodedSize(c).value + 255 <= U64_MAX ==> r.Some?
  {
    match c
    case Contiguous(word, shape) =>
      var wordBytes := match word case BF16 => 2 case FP32 => 4 case I32 => 4;
      r := ContiguousSize(shape, wordBytes);
      if Positive(shape) { TimesGrows(Product(shape), wordBytes); }
    case RowSplitK128(format, shape) =>
      if !Rank2(shape) { return None; }
      RowSplitAgree(format, shape[0], shape[1]);
      RowSplitRoom(format, shape[0], shape[1]);
      var g := CheckedRowSplit(format, shape[0], shape[1]);
      r := if g.Some? then Some(g.value.payloadBytes) else None;
    case BlockScaleK16(shape) =>
      if !Rank2(shape) { return None; }
      BlockScaleAgree(shape[0], shape[1]);
      var g := CheckedBlockScale(shape[0], shape[1]);
      r := if g.Some? then Some(g.value.payloadBytes) else None;
    case RowScaleV1(shape) =>
      if !Rank2(shape) { return None; }
      RowScaleAgree(shape[0], shape[1]);
      var g := CheckedRowScale(shape[0], shape[1]);
      r := if g.Some? then Some(g.value.payloadBytes) else None;
    case RawBytes => r := None;
  }

  /** A payload has at least half a byte for each column. */
  lemma RowSplitRoom(f: Format, n: nat, k: nat)
    requires n > 0
    ensures k <= 2 * RowSplitGeometry(f, n, k).payloadBytes
  {
    var row := RowGeometry(f, k);
    GroupsTile(f, k);
    assert row.baseBytes == row.groups * 32;
    TimesGrows(row.baseBytes, n);
    assert Times(row.baseBytes, n) == Times(n, row.baseBytes);
  }

  datatype Object = Object(name: string, kind: Kind, contract: Contract, offset: nat, bytes: nat)

  const TENSOR_ALIGNMENT: nat := 256

  function AlignmentOf(kind: Kind): (a: nat)
    ensures a > 0 && TENSOR_ALIGNMENT % a == 0
  {
    match kind
    case Tensor => TENSOR_ALIGNMENT
    case Resource => 1
  }

  function End(o: Object): nat {
    o.offset + o.bytes
  }

  ghost predicate ObjectOk(o: Object, payloadBytes: nat) {
    o.bytes > 0 && o.offset % AlignmentOf(o.kind) == 0 && End(o) <= payloadBytes
  }

  /** Extents ascend without overlap, and names are unique. */
  ghost predicate InOrder(objects: seq<Object>) {
    forall i, j | 0 <= i < j < |objects| :: End(objects[i]) <= objects[j].offset && objects[i].name != objects[j].name
  }

  /** What a reader promises about the objects of an artifact it has opened. */
  ghost predicate TableOk(objects: seq<Object>, payloadBytes: nat) {
    (forall i | 0 <= i < |objects| :: ObjectOk(objects[i], payloadBytes)) && InOrder(objects)
  }

  /** The order, alignment and bounds checks of both readers, from `cursor` on. */
  predicate RangesFrom(objects: seq<Object>, cursor: nat, payloadBytes: nat) {
    objects == [] ||
    (&& cursor <= objects[0].offset && objects[0].offset % AlignmentOf(objects[0].kind) == 0
     && End(objects[0]) <= payloadBytes && RangesFrom(objects[1..], End(objects[0]), payloadBytes))
  }

  /** The running cursor makes extents pairwise disjoint, not only neighbours. */
  lemma {:induction false} RangesPairwise(objects: seq<Object>, cursor: nat, payloadBytes: nat)
    requires RangesFrom(objects, cursor, payloadBytes)
    ensures forall i | 0 <= i < |objects| ::
              && cursor <= objects[i].offset && objects[i].offset % AlignmentOf(objects[i].kind) == 0
              && End(objects[i]) <= payloadBytes
    ensures forall i, j | 0 <= i < j < |objects| :: End(objects[i]) <= objects[j].offset
  {
    if objects != [] {
      RangesPairwise(objects[1..], End(objects[0]), payloadBytes);
      assert forall i | 0 < i < |objects| :: objects[i] == objects[1..][i - 1];
    }
  }

  predicate NamesUnique(objects: seq<Object>) {
    forall i, j | 0 <= i < j < |objects| :: objects[i].name != objects[j].name
  }

  /** A directory that passes a reader's checks is what the binder and the loader rely on. */
  lemma RangesTable(objects: seq<Object>, payloadBytes: nat)
    requires RangesFrom(objects, 0, payloadBytes) && NamesUnique(objects) && forall i | 0 <= i < |objects| :: objects[i].bytes > 0
    ensures TableOk(objects, payloadBytes)
  {
    RangesPairwise(objects, 0, payloadBytes);
  }
}

/** Zeroing pages in the planes of a paged KV pool. */
module ZeroPages {
  import opened Alignment
  import opened Bytes

  datatype Order = PageMajor | HeadMajor

  /** A contiguous tensor of four extents; `strides[i]` is the distance in bytes between neighbours along axis `i`. */
  datatype Tensor = Tensor(elementBytes: nat, extents: seq<nat>, strides: seq<nat>)

  /** Strides of a packed tensor. */
  ghost predicate Contiguous(t: Tensor) {
    && |t.extents| == |t.strides| == 4 && (forall i | 0 <= i < 4 :: t.extents[i] > 0) && t.elementBytes > 0
    && t.strides[0] == t.elementBytes && t.strides[1] == t.strides[0] * t.extents[0]
    && t.strides[2] == t.strides[1] * t.extents[1] && t.strides[3] == t.strides[2] * t.extents[2]
    && (forall i | 0 <= i < 4 :: t.strides[i] > 0)
  }

  function SizeOf(t: Tensor): nat
    requires |t.extents| == |t.strides| == 4
  {
    t.strides[3] * t.extents[3]
  }

  /** `set_contiguous_strides`. */
  method MakeTensor(elementBytes: nat, extents: seq<nat>) returns (t: Tensor)
    requires elementBytes > 0 && |extents| == 4 && forall i | 0 <= i < 4 :: extents[i] > 0
    ensures Contiguous(t) && t.elementBytes == elementBytes && t.extents == extents
  {
    var stride := elementBytes;
    var strides := [stride];
    for i := 1 to 4
      invariant |strides| == i && stride == strides[i - 1] && strides[0] == elementBytes
      invariant forall j | 0 <= j < i :: strides[j] > 0
      invariant forall j | 1 <= j < i :: strides[j] == strides[j - 1] * extents[j - 1]
    {
      PositiveProduct(stride, extents[i - 1]);
      stride := stride * extents[i - 1];
      strides := strides + [stride];
    }
    t := Tensor(elementBytes, extents, strides);
  }

  lemma PositiveProduct(a: nat, b: nat)
    requires a > 0 && b > 0
    ensures a * b > 0
  {
  }

  // ---- Which page a byte belongs to ----

  function PageAxis(order: Order): nat { if order.PageMajor? then 3 else 2 }

  /** The page of the byte at offset `x`. */
  function PageOf(order: Order, t: Tensor, x: nat): nat
    requires Contiguous(t)
  {
    if order.PageMajor? then x / t.strides[3] else x % t.strides[3] / t.strides[2]
  }

  function Address(t: Tensor, at: seq<nat>, byte: nat): nat
    requires |t.strides| == 4 && |at| == 4
  {
    at[0] * t.strides[0] + at[1] * t.strides[1] + at[2] * t.strides[2] + at[3] * t.strides[3] + byte
  }

  /** The page of every byte of every element is the element's coordinate along the page axis. */
  lemma AddressPage(order: Order, t: Tensor, at: seq<nat>, byte: nat)
    requires Contiguous(t) && |at| == 4 && byte < t.elementBytes && forall i | 0 <= i < 4 :: at[i] < t.extents[i]
    ensures Address(t, at, byte) < SizeOf(t)
    ensures PageOf(order, t, Address(t, at, byte)) == at[PageAxis(order)]
  {
    var s, n := t.strides, t.extents;
    var low0 := at[0] * s[0] + byte;
    Nested(at[0], n[0], s[0], byte);
    Nested(at[1], n[1], s[1], low0);
    var low1 := at[1] * s[1] + low0;
    Nested(at[2], n[2], s[2], low1);
    var low2 := at[2] * s[2] + low1;
    Nested(at[3], n[3], s[3], low2);
    assert Address(t, at, byte) == at[3] * s[3] + low2;
    Quotient(Address(t, at, byte), at[3], low2, s[3]);
    Quotient(low2, at[2], low1, s[2]);
  }

  // ---- Memsets ----

  predicate Within(x: nat, from: nat, n: nat) { from <= x < from + n }

  /** `cudaMemsetAsync`. */
  function Memset(data: seq<Byte>, from: nat, n: nat): (r: seq<Byte>)
    requires from + n <= |data|
    ensures |r| == |data| && forall x | 0 <= x < |data| :: r[x] == if Within(x, from, n) then 0 else data[x]
  {
    data[..from] + Zeros(n) + data[from + n..]
  }

  predicate InRows(x: nat, from: nat, pitch: nat, width: nat, height: nat)
    requires pitch > 0
  {
    x / pitch < height && Within(x % pitch, from, width)
  }

  lemma RowRange(x: nat, h: nat, from: nat, pitch: nat, width: nat)
    requires pitch > 0 && from + width <= pitch
    ensures Within(x, from + h * pitch, width) <==> x / pitch == h && Within(x % pitch, from, width)
  {
    if Within(x, from + h * pitch, width) { Quotient(x, h, x - h * pitch, pitch); }
  }

  /** Rows up to `h + 1` are rows up to `h` and the bytes of row `h`, which lie in the plane. */
  lemma RowsMore(size: nat, h: nat, height: nat, from: nat, pitch: nat, width: nat)
    requires pitch > 0 && from + width <= pitch && h < height && height * pitch <= size
    ensures from + h * pitch + width <= size
    ensures forall x: nat | x < size ::
              InRows(x, from, pitch, width, h + 1) <==> InRows(x, from, pitch, width, h) || Within(x, from + h * pitch, width)
  {
    MultiplesOrder(h, height, pitch);
    forall x: nat | x < size
      ensures InRows(x, from, pitch, width, h + 1) <==> InRows(x, from, pitch, width, h) || Within(x, from + h * pitch, width)
    {
      RowRange(x, h, from, pitch, width);
    }
  }

  /** `cudaMemset2DAsync`: `height` rows of `width` bytes, `pitch` apart. */
  method Memset2D(data: seq<Byte>, from: nat, pitch: nat, width: nat, height: nat) returns (r: seq<Byte>)
    requires pitch > 0 && from + width <= pitch && height * pitch <= |data|
    ensures |r| == |data| && forall x | 0 <= x < |data| :: r[x] == if InRows(x, from, pitch, width, height) then 0 else data[x]
  {
    r := data;
    for h := 0 to height
      invariant |r| == |data| && forall x | 0 <= x < |data| :: r[x] == if InRows(x, from, pitch, width, h) then 0 else data[x]
    {
      RowsMore(|data|, h, height, from, pitch, width);
      r := Memset(r, from + h * pitch, width);
    }
  }

  // ---- One run of pages ----

  /** Exactly the bytes of the named pages are zero, the others as before. */
  ghost predicate ZeroedOnly(order: Order, t: Tensor, before: seq<Byte>, ids: set<int>, after: seq<Byte>)
    requires Contiguous(t)
  {
    |after| == |before| && forall x | 0 <= x < |before| :: after[x] == if PageOf(order, t, x) in ids then 0 else before[x]
  }

  function Pages(first: nat, count: nat): (ids: set<int>)
    ensures forall g :: g in ids <==> first <= g < first + count
  {
    if count == 0 then {} else Pages(first, count - 1) + {first + count - 1}
  }

  lemma LinearRun(x: nat, stride: nat, first: nat, count: nat)
    requires stride > 0
    ensures first <= x / stride < first + count <==> Within(x, first * stride, count * stride)
  {
    var q, r := x / stride, x % stride;
    assert x == q * stride + r;
    assert first * stride + count * stride == (first + count) * stride;
    if q < first { MultiplesOrder(q, first, stride); }
    if q < first + count { MultiplesOrder(q, first + count, stride); }
    if q >= first + count && q > first + count { MultiplesOrder(first + count, q, stride); }
    if q > first { MultiplesOrder(first, q, stride); }
  }

  /** `zero_run` on one plane. */
  method ZeroRun(order: Order, t: Tensor, data: seq<Byte>, first: nat, count: nat) returns (r: seq<Byte>)
    requires Contiguous(t) && |data| == SizeOf(t) && first + count <= t.extents[PageAxis(order)]
    ensures ZeroedOnly(order, t, data, Pages(first, count), r)
  {
    if order.PageMajor? {
      RunFits(first, count, t.extents[3], t.strides[3]);
      r := Memset(data, first * t.strides[3], count * t.strides[3]);
      forall x | 0 <= x < |data|
        ensures PageOf(order, t, x) in Pages(first, count) <==> Within(x, first * t.strides[3], count * t.strides[3])
      {
        LinearRun(x, t.strides[3], first, count);
      }
    } else {
      RunFits(first, count, t.extents[2], t.strides[2]);
      Commutes(t.extents[3], t.strides[3]);
      r := Memset2D(data, first * t.strides[2], t.strides[3], count * t.strides[2], t.extents[3]);
      forall x | 0 <= x < |data|
        ensures PageOf(order, t, x) in Pages(first, count)
           <==> InRows(x, first * t.strides[2], t.strides[3], count * t.strides[2], t.extents[3])
      {
        LinearRun(x % t.strides[3], t.strides[2], first, count);
        Commutes(t.strides[3], t.extents[3]);
        QuotientBound(x, t.strides[3], t.extents[3]);
      }
    }
  }

  lemma RunFits(first: nat, count: nat, pages: nat, stride: nat)
    requires first + count <= pages
    ensures first * stride + count * stride <= stride * pages
  {
    assert first * stride + count * stride == (first + count) * stride;
    if first + count < pages { MultiplesOrder(first + count, pages, stride); }
  }

  lemma Commutes(a: nat, b: nat)
    ensures a * b == b * a
  {
  }

  lemma ZeroedMore(order: Order, t: Tensor, a: seq<Byte>, s: set<int>, b: seq<Byte>, more: set<int>, c: seq<Byte>)
    requires Contiguous(t) && ZeroedOnly(order, t, a, s, b) && ZeroedOnly(order, t, b, more, c)
    ensures ZeroedOnly(order, t, a, s + more, c)
  {
  }

  // ---- Sorting the ids ----

  function Place(s: seq<int>, x: int): (r: seq<int>)
    ensures forall y :: y in r <==> y in s || y == x
  {
    if s == [] || x <= s[0] then [x] + s else [s[0]] + Place(s[1..], x)
  }

  function Sort(s: seq<int>): (r: seq<int>)
    ensures forall y :: y in r <==> y in s
  {
    if s == [] then [] else Place(Sort(s[1..]), s[0])
  }

  ghost predicate Sorted(s: seq<int>) {
    forall i, j | 0 <= i < j < |s| :: s[i] <= s[j]
  }

  ghost predicate Distinct(s: seq<int>) {
    s == [] || (s[0] !in s[1..] && Distinct(s[1..]))
  }

  lemma {:induction false} PlaceSorted(s: seq<int>, x: int)
    requires Sorted(s)
    ensures Sorted(Place(s, x))
  {
    if s != [] && x > s[0] {
      PlaceSorted(s[1..], x);
      var rest := Place(s[1..], x);
      forall j | 0 <= j < |rest| ensures s[0] <= rest[j] { assert rest[j] == x || rest[j] in s[1..]; }
    }
  }

  lemma {:induction false} SortSorted(s: seq<int>)
    ensures Sorted(Sort(s))
  {
    if s != [] {
      SortSorted(s[1..]);
      PlaceSorted(Sort(s[1..]), s[0]);
    }
  }

  lemma {:induction false} PlaceDistinct(s: seq<int>, x: int)
    ensures Distinct(Place(s, x)) <==> Distinct(s) && x !in s
  {
    if s == [] || x <= s[0] {
      assert ([x] + s)[1..] == s;
    } else {
      PlaceDistinct(s[1..], x);
      assert ([s[0]] + Place(s[1..], x))[1..] == Place(s[1..], x);
      assert x in s <==> x == s[0] || x in s[1..];
    }
  }

  lemma {:induction false} SortDistinct(s: seq<int>)
    ensures Distinct(Sort(s)) <==> Distinct(s)
  {
    if s != [] {
      SortDistinct(s[1..]);
      PlaceDistinct(Sort(s[1..]), s[0]);
    }
  }

  /** `std::adjacent_find` on sorted ids finds every duplicate. */
  method NoDuplicate(s: seq<int>) returns (ok: bool)
    requires Sorted(s)
    ensures ok <==> Distinct(s)
    ensures ok ==> forall i | 0 < i < |s| :: s[i - 1] < s[i]
  {
    var i: nat := |s|;
    while i > 1
      invariant i <= |s| && (|s| > 0 ==> i > 0) && forall j | i <= j < |s| :: s[j - 1] < s[j]
      invariant |s| > 0 ==> Distinct(s[i - 1..])
    {
      i := i - 1;
      if s[i - 1] == s[i] {
        Repeated(s, i);
        return false;
      }
      assert s[i - 1..][1..] == s[i..];
      assert s[i - 1] !in s[i..];
    }
    assert |s| > 0 ==> s[0..] == s;
    return true;
  }

  lemma {:induction false} Repeated(s: seq<int>, i: nat)
    requires 0 < i < |s| && s[i - 1] == s[i]
    ensures !Distinct(s)
  {
    if i > 1 {
      Repeated(s[1..], i - 1);
    } else {
      assert s[1..][0] == s[0];
    }
  }

  // ---- The planes of a pool ----

  ghost function Elements(s: seq<int>): set<int> {
    set id | id in s
  }

  /** The longest run of consecutive ids from `begin` on. */
  method RunEnd(s: seq<int>, begin: nat) returns (end: nat)
    requires begin < |s|
    ensures begin < end <= |s| && forall j | begin <= j < end :: s[j] == s[begin] + (j - begin)
    ensures end < |s| ==> s[end] != s[begin] + (end - begin)
  {
    end := begin + 1;
    while end < |s| && s[end] == s[end - 1] + 1
      invariant begin < end <= |s| && forall j | begin <= j < end :: s[j] == s[begin] + (j - begin)
    {
      end := end + 1;
    }
  }

  lemma RunElements(s: seq<int>, begin: nat, end: nat)
    requires begin < end <= |s| && s[begin] >= 0 && forall j | begin <= j < end :: s[j] == s[begin] + (j - begin)
    ensures Elements(s[..end]) == Elements(s[..begin]) + Pages(s[begin], end - begin)
  {
    assert s[..end] == s[..begin] + s[begin..end];
    forall g | g in Pages(s[begin], end - begin) ensures g in s[begin..end] { assert s[begin..end][g - s[begin]] == g; }
  }

  ghost predicate Stray(ids: seq<int>, pages: nat) {
    exists id | id in ids :: id < 0 || id >= pages
  }

  /** The first and the last of the sorted ids tell whether any is out of range. */
  lemma SortedEnds(ids: seq<int>, pages: nat)
    requires ids != []
    ensures var s := Sort(ids);
            && s != [] && (Stray(ids, pages) <==> s[0] < 0 || s[|s| - 1] >= pages)
            && (!Stray(ids, pages) ==> forall i | 0 <= i < |s| :: 0 <= s[i] < pages)
  {
    var s := Sort(ids);
    SortSorted(ids);
    assert ids[0] in s;
    assert s[0] in ids && s[|s| - 1] in ids;
    if Stray(ids, pages) {
      var id :| id in ids && (id < 0 || id >= pages);
      assert id in s;
    }
    forall i | 0 <= i < |s| ensures s[i] in ids { }
  }

  datatype Error = NoError | OutOfRange | InvalidArgument

  class Planes {
    const order: Order
    const pages: nat
    const tensors: seq<Tensor>
    var data: seq<seq<Byte>>

    ghost predicate Valid()
      reads this
    {
      |data| == |tensors| &&
      forall k | 0 <= k < |tensors| ::
        && Contiguous(tensors[k]) && |data[k]| == SizeOf(tensors[k]) && tensors[k].extents[PageAxis(order)] == pages
    }

    /** In every plane exactly the bytes of these pages were zeroed. */
    ghost predicate Zeroed(before: seq<seq<Byte>>, ids: set<int>)
      requires Valid()
      reads this
    {
      |before| == |data| && forall k | 0 <= k < |tensors| :: ZeroedOnly(order, tensors[k], before[k], ids, data[k])
    }

    constructor (order: Order, pages: nat, tensors: seq<Tensor>, data: seq<seq<Byte>>)
      requires |data| == |tensors|
      requires forall k | 0 <= k < |tensors| ::
                 Contiguous(tensors[k]) && |data[k]| == SizeOf(tensors[k]) && tensors[k].extents[PageAxis(order)] == pages
      ensures Valid() && this.order == order && this.pages == pages && this.tensors == tensors && this.data == data
    {
      this.order, this.pages, this.tensors, this.data := order, pages, tensors, data;
    }

    /** `zero_run`: the same pages in every plane. */
    method ZeroRunAll(first: nat, count: nat, ghost before: seq<seq<Byte>>, ghost ids: set<int>)
      requires Valid() && first + count <= pages && Zeroed(before, ids)
      modifies this
      ensures Valid() && Zeroed(before, ids + Pages(first, count))
    {
      for k := 0 to |tensors|
        invariant Valid() && forall j | k <= j < |tensors| :: data[j] == old(data)[j]
        invariant forall j | 0 <= j < k :: ZeroedOnly(order, tensors[j], before[j], ids + Pages(first, count), data[j])
      {
        var r := ZeroRun(order, tensors[k], data[k], first, count);
        ZeroedMore(order, tensors[k], before[k], ids, data[k], Pages(first, count), r);
        data := data[k := r];
      }
    }

    /** `zero_pages`: sorts the ids, coalesces runs, and zeroes exactly the named pages of every plane. */
    method ZeroPages(ids: seq<int>) returns (e: Error)
      requires Valid()
      modifies this
      ensures Valid()
      ensures e == if Stray(ids, pages) then OutOfRange else if !Distinct(ids) then InvalidArgument else NoError
      ensures e != NoError ==> data == old(data)
      ensures e == NoError ==> Zeroed(old(data), Elements(ids))
    {
      if ids == [] {
        assert Zeroed(data, {});
        return NoError;
      }
      var sorted := Sort(ids);
      SortedEnds(ids, pages);
      if sorted[0] < 0 || sorted[|sorted| - 1] >= pages { return OutOfRange; }
      SortSorted(ids);
      SortDistinct(ids);
      var ok := NoDuplicate(sorted);
      if !ok { return InvalidArgument; }
      ZeroSorted(sorted);
      assert Elements(sorted) == Elements(ids);
      return NoError;
    }

    method ZeroSorted(sorted: seq<int>)
      requires Valid() && forall i | 0 <= i < |sorted| :: 0 <= sorted[i] < pages
      modifies this
      ensures Valid() && Zeroed(old(data), Elements(sorted))
    {
      var begin: nat := 0;
      while begin < |sorted|
        invariant begin <= |sorted| && Valid() && Zeroed(old(data), Elements(sorted[..begin]))
      {
        var end := RunEnd(sorted, begin);
        RunElements(sorted, begin, end);
        assert sorted[end - 1] == sorted[begin] + (end - 1 - begin);
        ZeroRunAll(sorted[begin], end - begin, old(data), Elements(sorted[..begin]));
        begin := end;
      }
      assert sorted[..|sorted|] == sorted;
    }
  }

  /** After `zero_pages`, every byte of every element of a plane is zero if its page was named, and unchanged if not. */
  lemma ZeroedElement(order: Order, t: Tensor, before: seq<Byte>, ids: set<int>, after: seq<Byte>, at: seq<nat>, byte: nat)
    requires Contiguous(t) && |before| == SizeOf(t) && ZeroedOnly(order, t, before, ids, after)
    requires |at| == 4 && byte < t.elementBytes && forall i | 0 <= i < 4 :: at[i] < t.extents[i]
    ensures var x := Address(t, at, byte);
            x < |before| && |after| == |before| && after[x] == if at[PageAxis(order)] in ids then 0 else before[x]
  {
    AddressPage(order, t, at, byte);
  }
}

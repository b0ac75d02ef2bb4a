/** The NVFP4 payload: packed codes, swizzled block scales and a divisor word. */
module Nvfp4Layout {
  import opened Wrappers
  import opened Alignment
  import opened Bytes
  import opened StorageGeometry

  // ---- Positions in a five-axis tensor ----

  /** Row-major position in a tensor whose last four extents are `m, l, k, j`. */
  function Flatten(m: nat, l: nat, k: nat, j: nat, at: Axes): nat {
    (((at.i0 * m + at.i1) * l + at.i2) * k + at.i3) * j + at.i4
  }

  datatype Axes = Axes(i0: nat, i1: nat, i2: nat, i3: nat, i4: nat)

  function Unflatten(m: nat, l: nat, k: nat, j: nat, x: nat): Axes
    requires m > 0 && l > 0 && k > 0 && j > 0
  {
    var a: nat := x / j;
    var b: nat := a / k;
    var c: nat := b / l;
    Axes(c / m, c % m, b % l, a % k, x % j)
  }

  predicate Fits(n: nat, m: nat, l: nat, k: nat, j: nat, at: Axes) {
    at.i0 < n && at.i1 < m && at.i2 < l && at.i3 < k && at.i4 < j
  }

  lemma Divided(x: nat, a: nat)
    requires a > 0
    ensures x / a * a + x % a == x
  {
  }

  lemma FlattenUnflatten(m: nat, l: nat, k: nat, j: nat, x: nat)
    requires m > 0 && l > 0 && k > 0 && j > 0
    ensures Flatten(m, l, k, j, Unflatten(m, l, k, j, x)) == x
  {
    Divided(x, j);
    Divided(x / j, k);
    Divided(x / j / k, l);
    Divided(x / j / k / l, m);
  }

  lemma UnflattenFlatten(n: nat, m: nat, l: nat, k: nat, j: nat, at: Axes)
    requires Fits(n, m, l, k, j, at)
    ensures Unflatten(m, l, k, j, Flatten(m, l, k, j, at)) == at
  {
    var c := at.i0 * m + at.i1;
    var b := c * l + at.i2;
    var a := b * k + at.i3;
    Quotient(c, at.i0, at.i1, m);
    Quotient(b, c, at.i2, l);
    Quotient(a, b, at.i3, k);
    Quotient(a * j + at.i4, a, at.i4, j);
  }

  function Volume(n: nat, m: nat, l: nat, k: nat, j: nat): nat { n * m * l * k * j }

  lemma FlattenBound(n: nat, m: nat, l: nat, k: nat, j: nat, at: Axes)
    requires Fits(n, m, l, k, j, at)
    ensures Flatten(m, l, k, j, at) < Volume(n, m, l, k, j)
  {
    var c := at.i0 * m + at.i1;
    var b := c * l + at.i2;
    var a := b * k + at.i3;
    Nested(at.i0, n, m, at.i1);
    Nested(c, n * m, l, at.i2);
    Nested(b, n * m * l, k, at.i3);
    Nested(a, n * m * l * k, j, at.i4);
  }

  lemma UnflattenFits(n: nat, m: nat, l: nat, k: nat, j: nat, x: nat)
    requires m > 0 && l > 0 && k > 0 && j > 0 && x < Volume(n, m, l, k, j)
    ensures Fits(n, m, l, k, j, Unflatten(m, l, k, j, x))
  {
    QuotientBound(x, j, n * m * l * k);
    QuotientBound(x / j, k, n * m * l);
    QuotientBound(x / j / k, l, n * m);
    QuotientBound(x / j / k / l, m, n);
  }

  lemma VolumeSwap(n: nat, m: nat, l: nat, k: nat, j: nat)
    ensures Volume(n, m, l, k, j) == Volume(n, k, l, m, j)
  {
    assert n * m * l * k == n * k * l * m by {
      assert n * m * l * k == (n * l) * (m * k);
      assert n * k * l * m == (n * l) * (m * k);
    }
  }

  /** `permute(0, 3, 2, 1, 4)`. */
  function Swap(at: Axes): Axes { Axes(at.i0, at.i3, at.i2, at.i1, at.i4) }

  /** Where position `x` of the permuted tensor, with extents `n, k, l, m, j`, comes from. */
  function Origin(n: nat, m: nat, l: nat, k: nat, j: nat, x: nat): (y: nat)
    requires m > 0 && l > 0 && k > 0 && j > 0 && x < Volume(n, m, l, k, j)
    ensures y < Volume(n, m, l, k, j)
  {
    VolumeSwap(n, m, l, k, j);
    UnflattenFits(n, k, l, m, j, x);
    FlattenBound(n, m, l, k, j, Swap(Unflatten(k, l, m, j, x)));
    Flatten(m, l, k, j, Swap(Unflatten(k, l, m, j, x)))
  }

  /** Permuting back and forth returns every position to itself. */
  lemma OriginInverse(n: nat, m: nat, l: nat, k: nat, j: nat, x: nat)
    requires m > 0 && l > 0 && k > 0 && j > 0 && x < Volume(n, m, l, k, j)
    ensures Volume(n, k, l, m, j) == Volume(n, m, l, k, j)
    ensures Origin(n, m, l, k, j, Origin(n, k, l, m, j, x)) == x
  {
    VolumeSwap(n, m, l, k, j);
    UnflattenFits(n, m, l, k, j, x);
    var at := Unflatten(m, l, k, j, x);
    UnflattenFlatten(n, k, l, m, j, Swap(at));
    FlattenUnflatten(m, l, k, j, x);
  }

  /** `reshape(n, m, l, k, j).permute(0, 3, 2, 1, 4)` as a list. */
  function Permute(source: seq<Byte>, n: nat, m: nat, l: nat, k: nat, j: nat): (r: seq<Byte>)
    requires m > 0 && l > 0 && k > 0 && j > 0 && |source| == Volume(n, m, l, k, j)
    ensures |r| == |source|
  {
    seq(|source|, x requires 0 <= x < |source| => source[Origin(n, m, l, k, j, x)])
  }

  /** The permutation with the middle extents exchanged undoes the permutation. */
  lemma PermuteTwice(source: seq<Byte>, n: nat, m: nat, l: nat, k: nat, j: nat)
    requires m > 0 && l > 0 && k > 0 && j > 0 && |source| == Volume(n, m, l, k, j)
    ensures Volume(n, k, l, m, j) == |source|
    ensures Permute(Permute(source, n, m, l, k, j), n, k, l, m, j) == source
  {
    VolumeSwap(n, m, l, k, j);
    var once := Permute(source, n, m, l, k, j);
    forall x | 0 <= x < |source|
      ensures Permute(once, n, k, l, m, j)[x] == source[x]
    {
      OriginInverse(n, m, l, k, j, x);
    }
  }

  // ---- Block scales ----

  predicate Tiles(n: nat, k: nat) { n > 0 && k > 0 && n % 128 == 0 && k % 64 == 0 }

  /** One scale per sixteen columns: tiles of 128 rows by 4 groups. */
  lemma ScaleVolume(n: nat, k: nat)
    requires Tiles(n, k)
    ensures Times(n, k) / 16 == Volume(n / 128, 4, 32, k / 64, 4)
  {
    var t, kt := n / 128, k / 64;
    assert n * k == 16 * (512 * (t * kt)) by { assert (128 * t) * (64 * kt) == 8192 * (t * kt); }
    assert t * 4 * 32 * kt * 4 == 512 * (t * kt);
  }

  /** `swizzle_nvfp4_scales`. */
  function Swizzle(n: nat, k: nat, natural: seq<Byte>): (stored: seq<Byte>)
    requires Tiles(n, k) && |natural| == Times(n, k) / 16
    ensures |stored| == |natural|
  {
    ScaleVolume(n, k);
    Permute(natural, n / 128, 4, 32, k / 64, 4)
  }

  /** `unswizzle_nvfp4_scales`. */
  function Unswizzle(n: nat, k: nat, stored: seq<Byte>): (natural: seq<Byte>)
    requires Tiles(n, k) && |stored| == Times(n, k) / 16
    ensures |natural| == |stored|
  {
    ScaleVolume(n, k);
    VolumeSwap(n / 128, 4, 32, k / 64, 4);
    Permute(stored, n / 128, k / 64, 32, 4, 4)
  }

  /** Swizzling and unswizzling are inverse in both orders. */
  lemma SwizzleInverse(n: nat, k: nat, s: seq<Byte>)
    requires Tiles(n, k) && |s| == Times(n, k) / 16
    ensures Unswizzle(n, k, Swizzle(n, k, s)) == s && Swizzle(n, k, Unswizzle(n, k, s)) == s
  {
    ScaleVolume(n, k);
    VolumeSwap(n / 128, 4, 32, k / 64, 4);
    PermuteTwice(s, n / 128, 4, 32, k / 64, 4);
    PermuteTwice(s, n / 128, k / 64, 32, 4, 4);
  }

  /** Where the scale of row `r` and group `g` is stored: tile by tile of 128 rows and 4 groups, and in a tile first by
      the row modulo 32, then by the quarter of 32 rows, then by the group. */
  function StoredAt(k: nat, r: nat, g: nat): nat {
    ((r / 128 * (k / 64) + g / 4) * 32 + r % 32) * 16 + r % 128 / 32 * 4 + g % 4
  }

  lemma StoredFlat(kt: nat, r: nat, g: nat)
    ensures ((r / 128 * kt + g / 4) * 32 + r % 32) * 16 + r % 128 / 32 * 4 + g % 4 ==
              Flatten(kt, 32, 4, 4, Axes(r / 128, g / 4, r % 32, r % 128 / 32, g % 4))
  {
  }

  lemma NaturalFlat(kt: nat, r: nat, g: nat)
    ensures r * (4 * kt) + g == Flatten(4, 32, kt, 4, Axes(r / 128, r % 128 / 32, r % 32, g / 4, g % 4))
  {
    var row := (r / 128 * 4 + r % 128 / 32) * 32 + r % 32;
    assert row == r;
    assert (r * kt + g / 4) * 4 + g % 4 == r * (4 * kt) + g by { assert r * kt * 4 == r * (4 * kt); }
  }

  /** `Origin` takes the stored position to the natural one. */
  lemma StoredOrigin(t: nat, kt: nat, r: nat, g: nat)
    requires r < 128 * t && g < 4 * kt
    ensures var x := ((r / 128 * kt + g / 4) * 32 + r % 32) * 16 + r % 128 / 32 * 4 + g % 4;
            x < Volume(t, 4, 32, kt, 4) && Origin(t, 4, 32, kt, 4, x) == r * (4 * kt) + g
  {
    var at := Axes(r / 128, g / 4, r % 32, r % 128 / 32, g % 4);
    StoredFlat(kt, r, g);
    NaturalFlat(kt, r, g);
    FlattenBound(t, kt, 32, 4, 4, at);
    UnflattenFlatten(t, kt, 32, 4, 4, at);
    VolumeSwap(t, 4, 32, kt, 4);
  }

  lemma StoredComesFrom(n: nat, k: nat, r: nat, g: nat)
    requires Tiles(n, k) && r < n && g < k / 16
    ensures StoredAt(k, r, g) < Times(n, k) / 16 == Volume(n / 128, 4, 32, k / 64, 4)
    ensures Origin(n / 128, 4, 32, k / 64, 4, StoredAt(k, r, g)) == r * (k / 16) + g
  {
    ScaleVolume(n, k);
    assert k / 16 == 4 * (k / 64);
    StoredOrigin(n / 128, k / 64, r, g);
  }

  lemma SwizzleFrom(n: nat, k: nat, s: seq<Byte>, x: nat, y: nat)
    requires Tiles(n, k) && |s| == Times(n, k) / 16 == Volume(n / 128, 4, 32, k / 64, 4) && x < |s|
    requires y == Origin(n / 128, 4, 32, k / 64, 4, x)
    ensures y < |s| && Swizzle(n, k, s)[x] == s[y]
  {
  }

  /** The stored layout, scale by scale, in both directions. */
  lemma SwizzleAt(n: nat, k: nat, s: seq<Byte>, r: nat, g: nat)
    requires Tiles(n, k) && |s| == Times(n, k) / 16 && r < n && g < k / 16
    ensures StoredAt(k, r, g) < |s| && r * (k / 16) + g < |s|
    ensures Swizzle(n, k, s)[StoredAt(k, r, g)] == s[r * (k / 16) + g]
    ensures Unswizzle(n, k, s)[r * (k / 16) + g] == s[StoredAt(k, r, g)]
  {
    var x, y := StoredAt(k, r, g), r * (k / 16) + g;
    StoredComesFrom(n, k, r, g);
    SwizzleFrom(n, k, s, x, y);
    SwizzleFrom(n, k, Unswizzle(n, k, s), x, y);
    SwizzleInverse(n, k, s);
  }

  /** The swizzle only moves scales: distinct stored positions come from distinct natural positions. */
  lemma SwizzlePermutes(n: nat, k: nat, s: seq<Byte>, x: nat, y: nat)
    requires Tiles(n, k) && |s| == Times(n, k) / 16 && x < |s| && y < |s|
    ensures |s| == Volume(n / 128, 4, 32, k / 64, 4)
    ensures Swizzle(n, k, s)[x] == s[Origin(n / 128, 4, 32, k / 64, 4, x)]
    ensures Origin(n / 128, 4, 32, k / 64, 4, x) == Origin(n / 128, 4, 32, k / 64, 4, y) ==> x == y
  {
    ScaleVolume(n, k);
    VolumeSwap(n / 128, 4, 32, k / 64, 4);
    OriginInverse(n / 128, k / 64, 32, 4, 4, x);
    OriginInverse(n / 128, k / 64, 32, 4, 4, y);
  }

  // ---- The payload ----

  /** Codes are two to a byte; the divisor is one FP32 word. */
  datatype Words = Words(codes: seq<Byte>, scales: seq<Byte>, divisor: seq<Byte>)

  /** Nonnegative finite E4M3FN. */
  predicate ScaleOk(b: Byte) { b < 0x7F }

  predicate ScalesOk(s: seq<Byte>) { forall i | 0 <= i < |s| :: ScaleOk(s[i]) }

  /** A finite positive binary32 word. */
  predicate DivisorOk(word: seq<Byte>) { |word| == 4 && 0 < Value(word) < 0x7F80_0000 }

  ghost predicate WordsOk(g: BlockScale, w: Words) {
    |w.codes| == g.codeBytes && |w.scales| == g.scaleBytes && ScalesOk(w.scales) && DivisorOk(w.divisor)
  }

  /** `encode_nvfp4`; `None` is a shape or a word that is refused. */
  function Encode(n: nat, k: nat, w: Words): (payload: Option<seq<Byte>>)
    ensures payload.Some? ==> BlockScaleGeometry(n, k).Some? && |payload.value| == BlockScaleGeometry(n, k).value.payloadBytes
  {
    var geometry := BlockScaleGeometry(n, k);
    if geometry.None? then None else
    var g := geometry.value;
    if |w.codes| != g.codeBytes || |w.scales| != g.scaleBytes || !ScalesOk(w.scales) || !DivisorOk(w.divisor) then None else
    Some(w.codes + Zeros(g.scaleOffset - g.codeBytes) + Swizzle(n, k, w.scales) + w.divisor)
  }

  /** `decode_nvfp4_words`; `None` is a refused shape, size or word. */
  function Decode(n: nat, k: nat, payload: seq<Byte>): Option<Words> {
    var geometry := BlockScaleGeometry(n, k);
    if geometry.None? || |payload| != geometry.value.payloadBytes then None else
    var g := geometry.value;
    var scales := Unswizzle(n, k, payload[g.scaleOffset..g.scaleOffset + g.scaleBytes]);
    var divisor := payload[g.divisorOffset..];
    if !ScalesOk(scales) || !DivisorOk(divisor) then None else Some(Words(payload[..g.codeBytes], scales, divisor))
  }

  /** Exactly the acceptable words are encoded, and decoding returns them unchanged. */
  lemma Nvfp4RoundTrip(n: nat, k: nat, w: Words)
    ensures Encode(n, k, w).Some? <==> BlockScaleGeometry(n, k).Some? && WordsOk(BlockScaleGeometry(n, k).value, w)
    ensures Encode(n, k, w).Some? ==> Decode(n, k, Encode(n, k, w).value) == Some(w)
  {
    var payload := Encode(n, k, w);
    if payload.Some? {
      var g := BlockScaleGeometry(n, k).value;
      SwizzleInverse(n, k, w.scales);
      PayloadParts(w.codes, Zeros(g.scaleOffset - g.codeBytes), Swizzle(n, k, w.scales), w.divisor);
    }
  }

  lemma PayloadParts(a: seq<Byte>, b: seq<Byte>, c: seq<Byte>, d: seq<Byte>)
    ensures var s := a + b + c + d;
            && s[..|a|] == a && s[|a| + |b|..|a| + |b| + |c|] == c && s[|a| + |b| + |c|..] == d
  {
  }

  /** An encoded payload, byte by byte: the codes, zeros up to the scale plane, each scale at its stored position, and the
      divisor. */
  lemma PayloadAt(n: nat, k: nat, w: Words)
    requires Encode(n, k, w).Some?
    ensures Tiles(n, k)
    ensures var g, p := BlockScaleGeometry(n, k).value, Encode(n, k, w).value;
            && p[..g.codeBytes] == w.codes && (forall x | g.codeBytes <= x < g.scaleOffset :: p[x] == 0)
            && (forall r, c | 0 <= r < n && 0 <= c < k / 16 ::
                  && g.scaleOffset + StoredAt(k, r, c) < |p| && r * (k / 16) + c < |w.scales|
                  && p[g.scaleOffset + StoredAt(k, r, c)] == w.scales[r * (k / 16) + c])
            && p[g.divisorOffset..] == w.divisor
  {
    var g, p := BlockScaleGeometry(n, k).value, Encode(n, k, w).value;
    var stored := Swizzle(n, k, w.scales);
    PayloadParts(w.codes, Zeros(g.scaleOffset - g.codeBytes), stored, w.divisor);
    forall r, c | 0 <= r < n && 0 <= c < k / 16
      ensures g.scaleOffset + StoredAt(k, r, c) < |p| && r * (k / 16) + c < |w.scales|
      ensures p[g.scaleOffset + StoredAt(k, r, c)] == w.scales[r * (k / 16) + c]
    {
      SwizzleAt(n, k, w.scales, r, c);
      assert p[g.scaleOffset..g.scaleOffset + |stored|][StoredAt(k, r, c)] == stored[StoredAt(k, r, c)];
    }
  }
}

/** Packing signed codes of one group into nibbles and high bits, and back. */
module QuantCodes {
  import opened Alignment
  import opened Bytes
  import opened StorageGeometry

  // ---- Signed codes ----

  /** The number of codes of a width. */
  function Span(f: Format): nat {
    match f case Q4G64 => 16 case Q5G64 => 32 case Q6G64 => 64 case W8G32 => 256
  }

  /** Two's complement: the low bits of a code, of any sign. */
  function Unsigned(f: Format, c: int): nat {
    match f case Q4G64 => c % 16 case Q5G64 => c % 32 case Q6G64 => c % 64 case W8G32 => c % 256
  }

  function Half(f: Format): nat {
    match f case Q4G64 => 8 case Q5G64 => 16 case Q6G64 => 32 case W8G32 => 128
  }

  function Signed(f: Format, u: nat): int { if u >= Half(f) then u - Span(f) else u }

  predicate InRange(f: Format, c: int) { 0 - Half(f) <= c < Half(f) }

  /** What a code becomes when only its low bits are kept. */
  function Wrapped(f: Format, c: int): int { Signed(f, Unsigned(f, c)) }

  /** Exactly the codes in range survive. */
  lemma WrappedExact(f: Format, c: int)
    ensures Wrapped(f, c) == c <==> InRange(f, c)
  {
    match f
    case Q4G64 =>
    case Q5G64 =>
    case Q6G64 =>
    case W8G32 =>
  }

  function LowNibble(c: int): nat { c % 16 }

  /** The bits above the low nibble. */
  function Upper(f: Format, c: int): nat { Unsigned(f, c) / 16 }

  lemma Mod16(c: int, m: int, low: nat)
    requires low < 16 && c == 16 * m + low
    ensures c % 16 == low
  {
  }

  lemma LowAndUpper(f: Format, c: int)
    ensures LowNibble(c) + 16 * Upper(f, c) == Unsigned(f, c)
  {
    var u := Unsigned(f, c);
    match f
    case Q4G64 =>
    case Q5G64 => Mod16(c, 2 * (c / 32) + u / 16, u % 16);
    case Q6G64 => Mod16(c, 4 * (c / 64) + u / 16, u % 16);
    case W8G32 => Mod16(c, 16 * (c / 256) + u / 16, u % 16);
  }

  // ---- Low nibbles ----

  function Nibbles(low: nat, high: nat): Byte
    requires low < 16 && high < 16
  {
    (low + 16 * high) as Byte
  }

  /** `_pack_low_nibbles` of one group: code 2j in the low half of byte j, code 2j+1 in the high half. */
  function PackLow(g: seq<int>): (r: seq<Byte>)
    requires |g| % 2 == 0
    ensures |r| == |g| / 2
  {
    seq(|g| / 2, j requires 0 <= j < |g| / 2 => Nibbles(LowNibble(g[2 * j]), LowNibble(g[2 * j + 1])))
  }

  function LowAt(base: seq<Byte>, i: nat): nat
    requires i / 2 < |base|
  {
    if i % 2 == 0 then base[i / 2] as nat % 16 else base[i / 2] as nat / 16 % 16
  }

  lemma NibblesApart(low: nat, high: nat)
    requires low < 16 && high < 16
    ensures Nibbles(low, high) as nat % 16 == low && Nibbles(low, high) as nat / 16 % 16 == high
  {
    Quotient(low + 16 * high, high, low, 16);
  }

  lemma LowRoundTrip(g: seq<int>, i: nat)
    requires |g| % 2 == 0 && i < |g|
    ensures LowAt(PackLow(g), i) == LowNibble(g[i])
  {
    var j := i / 2;
    NibblesApart(LowNibble(g[2 * j]), LowNibble(g[2 * j + 1]));
  }

  // ---- High bits ----

  function TwoTo(t: nat): nat
    requires t < 8
  {
    match t case 0 => 1 case 1 => 2 case 2 => 4 case 3 => 8 case 4 => 16 case 5 => 32 case 6 => 64 case _ => 128
  }

  /** The high bits of a group, laid out code after code, low bit first. */
  function HighBits(f: Format, g: seq<int>): (r: seq<nat>)
    requires |g| == 64
    ensures |r| == 8 * HighGroupBytes(f) && forall q | 0 <= q < |r| :: r[q] < 2
  {
    match f
    case Q5G64 => seq(64, q requires 0 <= q < 64 => Upper(f, g[q]) % 2)
    case Q6G64 => seq(128, q requires 0 <= q < 128 => if q % 2 == 0 then Upper(f, g[q / 2]) % 2 else Upper(f, g[q / 2]) / 2 % 2)
    case _ => []
  }

  function EightBits(b0: nat, b1: nat, b2: nat, b3: nat, b4: nat, b5: nat, b6: nat, b7: nat): (r: nat)
    requires b0 < 2 && b1 < 2 && b2 < 2 && b3 < 2 && b4 < 2 && b5 < 2 && b6 < 2 && b7 < 2
    ensures r < 256
  {
    b0 + 2 * b1 + 4 * b2 + 8 * b3 + 16 * b4 + 32 * b5 + 64 * b6 + 128 * b7
  }

  /** Eight consecutive bits as a byte, the first the lowest. */
  function ByteAt(bits: seq<nat>, b: nat): Byte
    requires 8 * b + 8 <= |bits| && forall q | 0 <= q < |bits| :: bits[q] < 2
  {
    EightBits(bits[8 * b], bits[8 * b + 1], bits[8 * b + 2], bits[8 * b + 3],
              bits[8 * b + 4], bits[8 * b + 5], bits[8 * b + 6], bits[8 * b + 7]) as Byte
  }

  /** `_pack_high_bits` of one group. */
  function PackHigh(f: Format, g: seq<int>): (r: seq<Byte>)
    requires |g| == GroupSize(f)
    ensures |r| == HighGroupBytes(f)
  {
    if |g| != 64 then [] else
    var bits := HighBits(f, g);
    seq(HighGroupBytes(f), b requires 0 <= b < HighGroupBytes(f) => ByteAt(bits, b))
  }

  /** The high bits of code `i`: `(bits - 4)` bits from bit position `i * (bits - 4)` on. */
  function HighAt(f: Format, high: seq<Byte>, i: nat): nat
    requires |high| == HighGroupBytes(f) && i < GroupSize(f)
  {
    match f
    case Q5G64 => high[i / 8] as nat / TwoTo(i % 8) % 2
    case Q6G64 => high[i / 4] as nat / TwoTo(2 * (i % 4)) % 4
    case _ => 0
  }

  lemma BitOf(b0: nat, b1: nat, b2: nat, b3: nat, b4: nat, b5: nat, b6: nat, b7: nat)
    requires b0 < 2 && b1 < 2 && b2 < 2 && b3 < 2 && b4 < 2 && b5 < 2 && b6 < 2 && b7 < 2
    ensures var r := EightBits(b0, b1, b2, b3, b4, b5, b6, b7);
            && r % 2 == b0 && r / 2 % 2 == b1 && r / 4 % 2 == b2 && r / 8 % 2 == b3
            && r / 16 % 2 == b4 && r / 32 % 2 == b5 && r / 64 % 2 == b6 && r / 128 % 2 == b7
  {
    var r := EightBits(b0, b1, b2, b3, b4, b5, b6, b7);
    var q6 := b6 + 2 * b7;
    var q5 := b5 + 2 * q6;
    var q4 := b4 + 2 * q5;
    var q3 := b3 + 2 * q4;
    var q2 := b2 + 2 * q3;
    var q1 := b1 + 2 * q2;
    BitAt(r, 0, 1, b0, q1);
    BitAt(r, b0, 2, b1, q2);
    BitAt(r, b0 + 2 * b1, 4, b2, q3);
    BitAt(r, b0 + 2 * b1 + 4 * b2, 8, b3, q4);
    BitAt(r, b0 + 2 * b1 + 4 * b2 + 8 * b3, 16, b4, q5);
    BitAt(r, b0 + 2 * b1 + 4 * b2 + 8 * b3 + 16 * b4, 32, b5, q6);
    BitAt(r, b0 + 2 * b1 + 4 * b2 + 8 * b3 + 16 * b4 + 32 * b5, 64, b6, b7);
    BitAt(r, b0 + 2 * b1 + 4 * b2 + 8 * b3 + 16 * b4 + 32 * b5 + 64 * b6, 128, b7, 0);
  }

  /** A digit between lower and higher digits. */
  lemma BitAt(r: nat, low: nat, weight: nat, b: nat, rest: nat)
    requires b < 2 && low < weight && r == (b + 2 * rest) * weight + low
    ensures r / weight % 2 == b
  {
    Quotient(r, b + 2 * rest, low, weight);
    Quotient(b + 2 * rest, rest, b, 2);
  }

  lemma PairAt(r: nat, low: nat, weight: nat, p: nat, rest: nat)
    requires p < 4 && low < weight && r == (p + 4 * rest) * weight + low
    ensures r / weight % 4 == p
  {
    Quotient(r, p + 4 * rest, low, weight);
    Quotient(p + 4 * rest, rest, p, 4);
  }

  lemma PairOf(b0: nat, b1: nat, b2: nat, b3: nat, b4: nat, b5: nat, b6: nat, b7: nat)
    requires b0 < 2 && b1 < 2 && b2 < 2 && b3 < 2 && b4 < 2 && b5 < 2 && b6 < 2 && b7 < 2
    ensures var r := EightBits(b0, b1, b2, b3, b4, b5, b6, b7);
            r % 4 == b0 + 2 * b1 && r / 4 % 4 == b2 + 2 * b3 && r / 16 % 4 == b4 + 2 * b5 && r / 64 % 4 == b6 + 2 * b7
  {
    var r := EightBits(b0, b1, b2, b3, b4, b5, b6, b7);
    var p0, p1, p2, p3 := b0 + 2 * b1, b2 + 2 * b3, b4 + 2 * b5, b6 + 2 * b7;
    assert r == p0 + 4 * p1 + 16 * p2 + 64 * p3;
    PairAt(r, 0, 1, p0, p1 + 4 * p2 + 16 * p3);
    PairAt(r, p0, 4, p1, p2 + 4 * p3);
    PairAt(r, p0 + 4 * p1, 16, p2, p3);
    PairAt(r, p0 + 4 * p1 + 16 * p2, 64, p3, 0);
  }

  /** Bits and pairs of bits of a packed byte are the bits that were packed. */
  lemma ByteBit(bits: seq<nat>, b: nat, t: nat)
    requires 8 * b + 8 <= |bits| && t < 8 && forall q | 0 <= q < |bits| :: bits[q] < 2
    ensures ByteAt(bits, b) as nat / TwoTo(t) % 2 == bits[8 * b + t]
  {
    BitOf(bits[8 * b], bits[8 * b + 1], bits[8 * b + 2], bits[8 * b + 3],
          bits[8 * b + 4], bits[8 * b + 5], bits[8 * b + 6], bits[8 * b + 7]);
    match t
    case 0 =>
    case 1 =>
    case 2 =>
    case 3 =>
    case 4 =>
    case 5 =>
    case 6 =>
    case _ => assert t == 7;
  }

  lemma BytePair(bits: seq<nat>, b: nat, s: nat)
    requires 8 * b + 8 <= |bits| && s < 4 && forall q | 0 <= q < |bits| :: bits[q] < 2
    ensures ByteAt(bits, b) as nat / TwoTo(2 * s) % 4 == bits[8 * b + 2 * s] + 2 * bits[8 * b + 2 * s + 1]
  {
    PairOf(bits[8 * b], bits[8 * b + 1], bits[8 * b + 2], bits[8 * b + 3],
           bits[8 * b + 4], bits[8 * b + 5], bits[8 * b + 6], bits[8 * b + 7]);
    match s
    case 0 =>
    case 1 =>
    case 2 =>
    case _ => assert s == 3;
  }

  lemma UpperBounds(f: Format, c: int)
    ensures f.Q4G64? ==> Upper(f, c) == 0
    ensures f.Q5G64? ==> Upper(f, c) < 2
    ensures f.Q6G64? ==> Upper(f, c) < 4
  {
  }

  /** Five-bit codes: one high bit each. */
  lemma HighRoundTrip5(g: seq<int>, i: nat)
    requires |g| == 64 && i < 64
    ensures HighAt(Q5G64, PackHigh(Q5G64, g), i) == Upper(Q5G64, g[i])
  {
    var bits, b, t := HighBits(Q5G64, g), i / 8, i % 8;
    assert i == 8 * b + t;
    ByteBit(bits, b, t);
    UpperBounds(Q5G64, g[i]);
    assert bits[i] == Upper(Q5G64, g[i]);
  }

  lemma TwoBits(g: seq<int>, i: nat)
    requires |g| == 64 && i < 64
    ensures HighBits(Q6G64, g)[2 * i] + 2 * HighBits(Q6G64, g)[2 * i + 1] == Upper(Q6G64, g[i])
  {
    UpperBounds(Q6G64, g[i]);
    var u := Upper(Q6G64, g[i]);
    assert HighBits(Q6G64, g)[2 * i] == u % 2 && HighBits(Q6G64, g)[2 * i + 1] == u / 2 % 2;
  }

  /** Six-bit codes: two high bits each, never split over bytes. */
  lemma HighRoundTrip6(g: seq<int>, i: nat)
    requires |g| == 64 && i < 64
    ensures HighAt(Q6G64, PackHigh(Q6G64, g), i) == Upper(Q6G64, g[i])
  {
    var bits, b, s := HighBits(Q6G64, g), i / 4, i % 4;
    assert 2 * i == 8 * b + 2 * s;
    BytePair(bits, b, s);
    TwoBits(g, i);
  }

  // ---- Groups ----

  /** `_pack_codes` of one group: the base bytes. */
  function PackBase(f: Format, g: seq<int>): (r: seq<Byte>)
    requires |g| == GroupSize(f)
    ensures |r| == BaseGroupBytes(f)
  {
    if f.W8G32? then seq(32, i requires 0 <= i < 32 => Unsigned(f, g[i]) as Byte) else PackLow(g)
  }

  /** `_unpack_codes` of one group. */
  function UnpackGroup(f: Format, base: seq<Byte>, high: seq<Byte>): (g: seq<int>)
    requires |base| == BaseGroupBytes(f) && |high| == HighGroupBytes(f)
    ensures |g| == GroupSize(f)
  {
    if f.W8G32? then seq(32, i requires 0 <= i < 32 => Signed(f, base[i] as nat))
    else seq(64, i requires 0 <= i < 64 => NarrowAt(f, base, high, i))
  }

  function NarrowAt(f: Format, base: seq<Byte>, high: seq<Byte>, i: nat): int
    requires !f.W8G32? && |base| == 32 && |high| == HighGroupBytes(f) && i < 64
  {
    Signed(f, LowAt(base, i) + 16 * HighAt(f, high, i))
  }

  /** Unpacking a packed group keeps the low bits of every code; a group survives exactly when its codes are in range. */
  lemma GroupRoundTrip(f: Format, g: seq<int>)
    requires |g| == GroupSize(f)
    ensures UnpackGroup(f, PackBase(f, g), PackHigh(f, g)) == seq(|g|, i requires 0 <= i < |g| => Wrapped(f, g[i]))
    ensures UnpackGroup(f, PackBase(f, g), PackHigh(f, g)) == g <==> forall i | 0 <= i < |g| :: InRange(f, g[i])
  {
    var r := UnpackGroup(f, PackBase(f, g), PackHigh(f, g));
    forall i | 0 <= i < |g|
      ensures r[i] == Wrapped(f, g[i]) && (r[i] == g[i] <==> InRange(f, g[i]))
    {
      WrappedExact(f, g[i]);
      CodeRoundTrip(f, g, i);
    }
  }

  lemma HighRoundTrip(f: Format, g: seq<int>, i: nat)
    requires !f.W8G32? && |g| == 64 && i < 64
    ensures HighAt(f, PackHigh(f, g), i) == Upper(f, g[i])
  {
    match f
    case Q4G64 => UpperBounds(f, g[i]);
    case Q5G64 => HighRoundTrip5(g, i);
    case Q6G64 => HighRoundTrip6(g, i);
  }

  lemma Recombined(f: Format, c: int, low: nat, high: nat)
    requires low == LowNibble(c) && high == Upper(f, c)
    ensures Signed(f, low + 16 * high) == Wrapped(f, c)
  {
    LowAndUpper(f, c);
  }

  lemma NarrowCode(f: Format, base: seq<Byte>, high: seq<Byte>, i: nat, c: int)
    requires !f.W8G32? && |base| == 32 && |high| == HighGroupBytes(f) && i < 64
    requires LowAt(base, i) == LowNibble(c) && HighAt(f, high, i) == Upper(f, c)
    ensures NarrowAt(f, base, high, i) == Wrapped(f, c)
  {
    Recombined(f, c, LowAt(base, i), HighAt(f, high, i));
  }

  lemma WideCode(g: seq<int>, i: nat)
    requires |g| == 32 && i < 32
    ensures UnpackGroup(W8G32, PackBase(W8G32, g), [])[i] == Wrapped(W8G32, g[i])
  {
  }

  lemma CodeRoundTrip(f: Format, g: seq<int>, i: nat)
    requires |g| == GroupSize(f) && i < |g|
    ensures UnpackGroup(f, PackBase(f, g), PackHigh(f, g))[i] == Wrapped(f, g[i])
  {
    if f.W8G32? {
      WideCode(g, i);
      assert PackHigh(f, g) == [];
    } else {
      LowRoundTrip(g, i);
      HighRoundTrip(f, g, i);
      NarrowCode(f, PackLow(g), PackHigh(f, g), i, g[i]);
    }
  }

  // ---- The stored bits ----

  ghost predicate StoredNibble(base: seq<Byte>, i: nat, c: int)
    requires i / 2 < |base|
  {
    (if i % 2 == 0 then base[i / 2] as nat % 16 else base[i / 2] as nat / 16) == c % 16
  }

  /** Code `c` is number `i` of a stored group: even codes in the low half of a byte and odd ones in the high half, and
      above them one bit per code, eight to a byte, or two bits per code, four to a byte, the lowest first. */
  ghost predicate StoredCode(f: Format, base: seq<Byte>, high: seq<Byte>, i: nat, c: int)
    requires |base| == 32 && |high| == HighGroupBytes(f) && i < GroupSize(f)
  {
    match f
    case Q4G64 => StoredNibble(base, i, c)
    case Q5G64 => StoredNibble(base, i, c) && high[i / 8] as nat / TwoTo(i % 8) % 2 == c % 32 / 16
    case Q6G64 => StoredNibble(base, i, c) && high[i / 4] as nat / TwoTo(2 * (i % 4)) % 4 == c % 64 / 16
    case W8G32 => base[i] as int == c % 256
  }

  lemma NibbleStored(g: seq<int>, i: nat)
    requires |g| % 2 == 0 && i < |g|
    ensures StoredNibble(PackLow(g), i, g[i])
  {
    LowRoundTrip(g, i);
    assert PackLow(g)[i / 2] as nat / 16 < 16;
  }

  ghost predicate StoredCodes(f: Format, base: seq<Byte>, high: seq<Byte>, g: seq<int>)
    requires |base| == 32 && |high| == HighGroupBytes(f)
  {
    |g| == GroupSize(f) && forall i | 0 <= i < |g| :: StoredCode(f, base, high, i, g[i])
  }

  lemma CodeStored(f: Format, g: seq<int>, i: nat)
    requires |g| == GroupSize(f) && i < |g|
    ensures StoredCode(f, PackBase(f, g), PackHigh(f, g), i, g[i])
  {
    if !f.W8G32? {
      NibbleStored(g, i);
      HighRoundTrip(f, g, i);
    }
  }

  /** Every code of a packed group is stored where it belongs. */
  lemma GroupStored(f: Format, g: seq<int>)
    requires |g| == GroupSize(f)
    ensures StoredCodes(f, PackBase(f, g), PackHigh(f, g), g)
  {
    forall i | 0 <= i < |g| ensures StoredCode(f, PackBase(f, g), PackHigh(f, g), i, g[i]) { CodeStored(f, g, i); }
  }

  // ---- The specialised dequantizers ----

  /** `_low_g64`. */
  function LowG64(base: seq<Byte>): (r: seq<int>)
    requires |base| == 32
    ensures |r| == 64
  {
    seq(64, i requires 0 <= i < 64 => if i % 2 == 0 then base[i / 2] as nat % 16 else base[i / 2] as nat / 16 % 16)
  }

  /** The codes that `_dequant4` multiplies. */
  function Codes4(base: seq<Byte>): seq<int>
    requires |base| == 32
  {
    var u := LowG64(base);
    seq(64, i requires 0 <= i < 64 => if u[i] / 8 % 2 != 0 then u[i] - 16 else u[i])
  }

  function Codes5(base: seq<Byte>, high: seq<Byte>): seq<int>
    requires |base| == 32 && |high| == 8
  {
    var low := LowG64(base);
    seq(64, i requires 0 <= i < 64 =>
          var u := low[i] + 16 * (high[i / 8] as nat / TwoTo(i % 8) % 2);
          if u / 16 % 2 != 0 then u - 32 else u)
  }

  function Codes6(base: seq<Byte>, high: seq<Byte>): seq<int>
    requires |base| == 32 && |high| == 16
  {
    var low := LowG64(base);
    seq(64, i requires 0 <= i < 64 =>
          var u := low[i] + 16 * (high[i / 4] as nat / TwoTo(2 * (i % 4)) % 4);
          if u / 32 % 2 != 0 then u - 64 else u)
  }

  function Codes8(base: seq<Byte>): seq<int>
    requires |base| == 32
  {
    seq(32, i requires 0 <= i < 32 => if base[i] >= 128 then base[i] as int - 256 else base[i] as int)
  }

  /** The dequantizers extract the codes of the generic unpacking. */
  lemma DequantizersAgree(base: seq<Byte>, high5: seq<Byte>, high6: seq<Byte>)
    requires |base| == 32 && |high5| == 8 && |high6| == 16
    ensures Codes4(base) == UnpackGroup(Q4G64, base, []) && Codes5(base, high5) == UnpackGroup(Q5G64, base, high5)
    ensures Codes6(base, high6) == UnpackGroup(Q6G64, base, high6) && Codes8(base) == UnpackGroup(W8G32, base, [])
  {
    forall i | 0 <= i < 64
      ensures Codes4(base)[i] == UnpackGroup(Q4G64, base, [])[i] && Codes5(base, high5)[i] == UnpackGroup(Q5G64, base, high5)[i]
      ensures Codes6(base, high6)[i] == UnpackGroup(Q6G64, base, high6)[i]
    {
      var u := LowAt(base, i);
      assert u < 16;
    }
  }
}

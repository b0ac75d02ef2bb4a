/** Bytes and little-endian integers. */
module Bytes {
  newtype Byte = x: int | 0 <= x < 256

  const U64_MAX: nat := 0xFFFF_FFFF_FFFF_FFFF

  /** The value of little-endian digits. */
  function Value(s: seq<Byte>): nat {
    if s == [] then 0 else s[0] as nat + 256 * Value(s[1..])
  }

  /** The low `width` little-endian digits of `n`. */
  function Digits(n: nat, width: nat): (s: seq<Byte>)
    ensures |s| == width
  {
    if width == 0 then [] else [(n % 256) as Byte] + Digits(n / 256, width - 1)
  }

  function Power(width: nat): (p: nat)
    ensures p > 0
  {
    if width == 0 then 1 else 256 * Power(width - 1)
  }

  lemma {:induction false} DigitsValue(n: nat, width: nat)
    requires n < Power(width)
    ensures Value(Digits(n, width)) == n
  {
    if width > 0 {
      DigitsValue(n / 256, width - 1);
      assert Digits(n, width)[1..] == Digits(n / 256, width - 1);
    }
  }

  /** A 64-bit length survives being written and read back. */
  lemma WordValue(n: nat)
    requires n <= U64_MAX
    ensures Value(Digits(n, 8)) == n
  {
    assert Power(8) == 256 * Power(7) == 65536 * Power(6) == 0x100_0000 * Power(5) == 0x1_0000_0000 * Power(4);
    assert Power(4) == 256 * Power(3) == 65536 * Power(2) == 0x100_0000 * Power(1) == 0x1_0000_0000 * Power(0);
    DigitsValue(n, 8);
  }

  lemma {:induction false} ValueInjective(s: seq<Byte>, t: seq<Byte>)
    requires |s| == |t| && Value(s) == Value(t)
    ensures s == t
  {
    if s != [] {
      ValueInjective(s[1..], t[1..]);
      assert s == [s[0]] + s[1..] && t == [t[0]] + t[1..];
    }
  }

  /** Overwriting low digits with those of a larger number never exceeds the larger number. */
  lemma {:induction false} TornValue(s: seq<Byte>, t: seq<Byte>, k: nat)
    requires |s| == |t| && k <= |s| && Value(s) <= Value(t)
    ensures Value(t[..k] + s[k..]) <= Value(t)
  {
    var mix := t[..k] + s[k..];
    if k == 0 {
      assert mix == s;
    } else {
      TornValue(s[1..], t[1..], k - 1);
      assert mix[0] == t[0];
      assert mix[1..] == t[1..][..k - 1] + s[1..][k - 1..];
    }
  }

  function Zeros(n: nat): (z: seq<Byte>)
    ensures |z| == n
  {
    seq(n, i => 0)
  }
}

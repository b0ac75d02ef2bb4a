/** Rounding to a multiple of an alignment, and other small arithmetic. */
module Alignment {
  function Min(a: nat, b: nat): nat { if a < b then a else b }
  function Max(a: nat, b: nat): nat { if a < b then b else a }

  function AlignDown(v: nat, a: nat): (r: nat)
    requires a > 0
    ensures r <= v < r + a && r % a == 0
  {
    Multiple(v / a, a);
    v / a * a
  }

  function AlignUp(v: nat, a: nat): (r: nat)
    requires a > 0
    ensures v <= r < v + a && r % a == 0
  {
    Multiple((v + a - 1) / a, a);
    (v + a - 1) / a * a
  }

  lemma {:induction false} Multiple(q: nat, a: nat)
    requires a > 0
    ensures q * a % a == 0
  {
    if q > 0 {
      Multiple(q - 1, a);
      assert q * a == (q - 1) * a + a;
      AddModulus((q - 1) * a, a);
    }
  }

  lemma AddModulus(v: nat, a: nat)
    requires a > 0
    ensures (v + a) % a == v % a
  {
    var q, r := v / a, v % a;
    assert v + a == (q + 1) * a + r;
    Quotient(v + a, q + 1, r, a);
  }

  lemma MultiplesOrder(p: nat, q: nat, a: nat)
    requires p < q
    ensures p * a + a <= q * a
  {
    var d := q - p - 1;
    assert q * a == (p + 1 + d) * a == p * a + a + d * a;
  }

  lemma Quotient(v: nat, q: nat, r: nat, a: nat)
    requires r < a && v == q * a + r
    ensures v / a == q && v % a == r
  {
    var k := v / a;
    if q > k {
      MultiplesOrder(k, q, a);
    } else if q < k {
      MultiplesOrder(q, k, a);
    }
  }

  /** Multiples of the alignment less than one alignment apart are equal. */
  lemma MultiplesApart(x: nat, y: nat, a: nat)
    requires a > 0 && x % a == 0 && y % a == 0 && x < y + a && y < x + a
    ensures x == y
  {
    var p, q := x / a, y / a;
    if p > q {
      MultiplesOrder(q, p, a);
    } else if p < q {
      MultiplesOrder(p, q, a);
    }
  }

  /** Rounding up gives the least multiple that is not below. */
  lemma LeastMultiple(v: nat, a: nat, x: nat)
    requires a > 0 && v <= x && x % a == 0
    ensures AlignUp(v, a) <= x
  {
    if x < AlignUp(v, a) { MultiplesApart(x, AlignUp(v, a), a); }
  }

  lemma AddMultiples(x: nat, y: nat, a: nat)
    requires a > 0 && x % a == 0 && y % a == 0
    ensures (x + y) % a == 0
  {
    assert x + y == (x / a + y / a) * a;
    Multiple(x / a + y / a, a);
  }

  /** Rounding up commutes with adding a multiple: an aligned base does not change aligned offsets. */
  lemma AlignUpShift(base: nat, v: nat, a: nat)
    requires a > 0 && base % a == 0
    ensures AlignUp(base + v, a) == base + AlignUp(v, a)
  {
    AddMultiples(base, AlignUp(v, a), a);
    MultiplesApart(AlignUp(base + v, a), base + AlignUp(v, a), a);
  }

  /** A digit and what is below it stay under the next higher digit. */
  lemma Nested(i: nat, n: nat, stride: nat, low: nat)
    requires i < n && low < stride
    ensures i * stride + low < n * stride
  {
    MultiplesOrder(i, n, stride);
  }

  lemma QuotientBound(x: nat, stride: nat, n: nat)
    requires stride > 0 && x < n * stride
    ensures x / stride < n
  {
    var q := x / stride;
    if n < q { MultiplesOrder(n, q, stride); }
  }
}

/** Percentages shown on screen, written in integers.

    The source divides, multiplies by 100 and rounds with `Math.round`, which
    rounds halves upwards. For a numerator `p` and a positive denominator `t`
    that is `floor(p * 100 / t + 1/2)` over the rationals, which is what is
    computed here. The source computes the quotient in doubles, so where the
    rational result is exactly a half the double can fall just below it
    (`23 / 40 * 100` is 57.49999999999999) and the source shows one less. A
    zero denominator gives JavaScript's `NaN`, modelled as `None`. */
module Percent {
  import opened Wrappers

  /** `Math.round(p / t * 100)` for non-negative `p` and `t`, over the rationals. */
  function RoundedPercent(p: nat, t: nat): (r: Option<nat>)
    ensures r.None? <==> t == 0
    ensures r.Some? ==> 2 * t * r.value <= 200 * p + t < 2 * t * (r.value + 1)
    ensures r.Some? && p <= t ==> r.value <= 100
    ensures r.Some? && p <= t ==> (r.value == 100 <==> 200 * p >= 199 * t)
    ensures r.Some? && p == t ==> r.value == 100
    ensures r.Some? && p == 0 ==> r.value == 0
  {
    if t == 0 then None
    else
      var v := (200 * p + t) / (2 * t);
      RoundingFacts(p, t, v);
      Some(v)
  }

  /** The floor of a quotient is the only integer it lies between. */
  lemma FloorUnique(n: int, d: int, v: int, w: int)
    requires d > 0
    requires d * v <= n < d * (v + 1)
    requires d * w <= n < d * (w + 1)
    ensures v == w
  {
  }

  /** Euclidean division brackets the dividend. */
  lemma DivBrackets(n: int, d: int)
    requires d > 0
    ensures d * (n / d) <= n < d * (n / d + 1)
  {
    var q := n / d;
    assert n == d * q + n % d;
    assert d * (q + 1) == d * q + d;
  }

  /** Multiplying by a positive factor keeps order. */
  lemma MulMonotone(d: int, a: int, b: int)
    requires d > 0 && a <= b
    ensures d * a <= d * b
  {
    assert d * b - d * a == d * (b - a);
  }

  lemma RoundingFacts(p: nat, t: nat, v: int)
    requires t > 0 && v == (200 * p + t) / (2 * t)
    ensures 2 * t * v <= 200 * p + t < 2 * t * (v + 1)
    ensures p <= t ==> v <= 100
    ensures p <= t ==> (v == 100 <==> 200 * p >= 199 * t)
    ensures p == 0 ==> v == 0
  {
    var n := 200 * p + t;
    var d := 2 * t;
    DivBrackets(n, d);
    assert d * v <= n < d * (v + 1);
    if p <= t {
      assert n < d * 101;
      if v > 100 {
        MulMonotone(d, 101, v);
      }
      if 200 * p >= 199 * t {
        assert d * 100 <= n;
        FloorUnique(n, d, v, 100);
      }
      if v == 100 {
        assert d * 100 <= n;
      }
    }
    if p == 0 {
      assert d * 0 <= n < d * 1;
      FloorUnique(n, d, v, 0);
    }
  }

  /** More on top never shows a smaller percentage. */
  lemma RoundedPercentMonotone(p1: nat, p2: nat, t: nat)
    requires t > 0 && p1 <= p2
    ensures RoundedPercent(p1, t).value <= RoundedPercent(p2, t).value
  {
    var v1, v2 := RoundedPercent(p1, t).value, RoundedPercent(p2, t).value;
    var d := 2 * t;
    assert d * v1 <= 200 * p1 + t <= 200 * p2 + t < d * (v2 + 1);
    if v2 + 1 <= v1 {
      MulMonotone(d, v2 + 1, v1);
    }
  }

  /** Scaling by a positive factor keeps the sign. */
  lemma ProductSign(x: real, y: real)
    requires y > 0.0
    ensures x < 0.0 ==> x * y < 0.0
    ensures x == 0.0 ==> x * y == 0.0
    ensures x > 0.0 ==> x * y > 0.0
  {
  }

  /** The unrounded percentage `p / t * 100` reaches a threshold `b` exactly
      when `100 * p` reaches `b * t`. */
  lemma RatioAtLeast(p: int, t: int, b: int)
    requires t > 0
    ensures (p as real) / (t as real) * 100.0 >= b as real <==> 100 * p >= b * t
  {
    var pr, tr := p as real, t as real;
    var q := pr / tr;
    assert q * tr == pr;
    ProductSign(q * 100.0 - b as real, tr);
    assert (q * 100.0 - b as real) * tr == (100 * p - b * t) as real;
  }
}

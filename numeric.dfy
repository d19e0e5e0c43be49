/** Exact models of the JavaScript number operations the analytics code uses:
    `Math.round`, `Number(x.toFixed(2))`, the ratio `c / t * 100`, and NaN from 0 / 0. */
module Numeric {

  /** A JavaScript number where the source can produce NaN (a division 0 / 0). */
  datatype Number = Finite(value: real) | NaN

  /** `Math.round(x)`: the nearest integer, halves rounded up. */
  function Round(x: real): (r: int)
    ensures x - 0.5 < r as real <= x + 0.5
  {
    (x + 0.5).Floor
  }

  lemma RoundMonotone(x: real, y: real)
    requires x <= y
    ensures Round(x) <= Round(y)
  {
  }

  /** Rounding keeps a value inside integer bounds. */
  lemma RoundWithin(x: real, lo: int, hi: int)
    requires lo as real <= x <= hi as real
    ensures lo <= Round(x) <= hi
  {
  }

  lemma RoundOfInt(n: int)
    ensures Round(n as real) == n
  {
  }

  /** Rounding of a non-negative value to hundredths, half up. */
  function RoundHundredths(x: real): (r: real)
    requires x >= 0.0
    ensures 0.0 <= r && x - 0.005 < r <= x + 0.005
  {
    Round(x * 100.0) as real / 100.0
  }

  /** `Number(x.toFixed(2))`: the decimal rounding of `x` to two places, half away from zero. */
  function ToFixed2(x: real): (r: real)
    ensures x - 0.005 <= r <= x + 0.005
    ensures x >= 0.0 ==> r >= 0.0
    ensures x <= 0.0 ==> r <= 0.0
  {
    if x >= 0.0 then RoundHundredths(x) else -RoundHundredths(-x)
  }

  /** Rounding to hundredths keeps a value inside integer bounds. */
  lemma ToFixed2Within(x: real, lo: nat, hi: nat)
    requires lo as real <= x <= hi as real
    ensures lo as real <= ToFixed2(x) <= hi as real
  {
    var k := Round(x * 100.0);
    RoundWithin(x * 100.0, lo * 100, hi * 100);
    assert lo * 100 <= k <= hi * 100;
    assert (lo * 100) as real / 100.0 == lo as real;
    assert (hi * 100) as real / 100.0 == hi as real;
  }

  lemma ToFixed2WithinPercent(x: real)
    ensures 0.0 <= x <= 100.0 ==> 0.0 <= ToFixed2(x) <= 100.0
    ensures x == 0.0 ==> ToFixed2(x) == 0.0
  {
    if 0.0 <= x <= 100.0 { ToFixed2Within(x, 0, 100); }
  }

  /** Rounding to hundredths keeps the order of values. */
  lemma ToFixed2Monotone(x: real, y: real)
    requires x <= y
    ensures ToFixed2(x) <= ToFixed2(y)
  {
    if 0.0 <= x {
      RoundMonotone(x * 100.0, y * 100.0);
    } else if y < 0.0 {
      RoundMonotone(-y * 100.0, -x * 100.0);
    }
  }

  /** The percentage `c / t * 100` as an exact rational. */
  function Ratio100(c: nat, t: nat): (r: real)
    requires t > 0
    ensures c <= t ==> 0.0 <= r <= 100.0
    ensures r == 0.0 <==> c == 0
    ensures c == t ==> r == 100.0
  {
    RatioAtMostOne(c, t);
    c as real / t as real * 100.0
  }

  lemma RatioAtMostOne(c: nat, t: nat)
    requires t > 0
    ensures 0.0 <= c as real / t as real
    ensures c <= t ==> c as real / t as real <= 1.0
  {
    if c <= t {
      assert c as real <= t as real;
    }
  }

  /** `Math.round((c / t) * 100)`, the integer percentage used by the habit card,
      the reports page and the analytics best-days statistics. */
  function Percent(c: nat, t: nat): (r: int)
    requires t > 0
    ensures c <= t ==> 0 <= r <= 100
    ensures c == 0 ==> r == 0
    ensures c == t ==> r == 100
  {
    Round(Ratio100(c, t))
  }

  /** More completed days out of the same total never give a lower percentage. */
  lemma PercentMonotone(c1: nat, c2: nat, t: nat)
    requires t > 0 && c1 <= c2
    ensures Percent(c1, t) <= Percent(c2, t)
  {
    assert c1 as real / t as real <= c2 as real / t as real;
    RoundMonotone(Ratio100(c1, t), Ratio100(c2, t));
  }

  /** Dividing by a positive count keeps bounds scaled by that count. */
  lemma QuotientWithin(s: real, n: real, lo: real, hi: real)
    requires n > 0.0 && lo * n <= s <= hi * n
    ensures lo <= s / n <= hi
  {
    var q := s / n;
    assert q * n == s;
    assert (q - lo) * n >= 0.0 && (hi - q) * n >= 0.0;
  }

  /** `Number(((c / t) * 100).toFixed(2))`, the two-decimal percentage used by the analytics page. */
  function Percent2(c: nat, t: nat): (r: real)
    requires t > 0
    ensures c <= t ==> 0.0 <= r <= 100.0
    ensures r >= 0.0
    ensures c == 0 ==> r == 0.0
  {
    var x := Ratio100(c, t);
    ToFixed2WithinPercent(x);
    ToFixed2(x)
  }
}

/** Percentages as the views compute them: `Math.round((c / t) * 100)`, the zero-guarded
    `t > 0 ? ... : 0` form, and the unguarded form whose `x / 0` gives `Infinity` or `NaN`. */
module Percent {

  /** `Math.round((c / t) * 100)` for a positive total: the nearest whole percentage,
      halves rounded up. */
  function RoundedPercent(c: nat, t: nat): (r: nat)
    requires t > 0
    ensures 2 * t * r <= 200 * c + t < 2 * t * (r + 1)
  {
    (200 * c + t) / (2 * t)
  }

  /** A share of the total never rounds above 100. */
  lemma RoundedPercentAtMost100(c: nat, t: nat)
    requires 0 < t && c <= t
    ensures RoundedPercent(c, t) <= 100
  {
    var r := RoundedPercent(c, t);
    if r > 100 {
      MulMonotone(2 * t, 101, r);
      assert false;
    }
  }

  lemma MulMonotone(k: int, a: int, b: int)
    requires 0 <= k && a <= b
    ensures k * a <= k * b
  {
    assert k * b - k * a == k * (b - a);
  }

  /** More correct answers never round to a smaller percentage. */
  lemma RoundedPercentMonotone(c1: nat, c2: nat, t: nat)
    requires 0 < t && c1 <= c2
    ensures RoundedPercent(c1, t) <= RoundedPercent(c2, t)
  {
    var r1, r2 := RoundedPercent(c1, t), RoundedPercent(c2, t);
    if r1 > r2 {
      MulMonotone(2 * t, r2 + 1, r1);
      assert false;
    }
  }

  /** `total > 0 ? Math.round((correct / total) * 100) : 0`. */
  function GetPercentage(correct: nat, total: nat): (r: nat)
    ensures total == 0 ==> r == 0
    ensures total > 0 ==> 2 * total * r <= 200 * correct + total < 2 * total * (r + 1)
    ensures correct <= total ==> r <= 100
  {
    if total > 0 then
      RoundedPercentAtMost100Guard(correct, total);
      RoundedPercent(correct, total)
    else 0
  }

  /** The whole of a positive total is 100 percent. */
  lemma WholeIsHundred(n: nat)
    requires n > 0
    ensures GetPercentage(n, n) == 100
  {
    var r := GetPercentage(n, n);
    if r <= 99 {
      MulMonotone(2 * n, r + 1, 100);
      assert false;
    } else if r >= 101 {
      MulMonotone(2 * n, 101, r);
      assert false;
    }
  }

  /** What JavaScript produces for a percentage whose total may be zero:
      a number, `Infinity` (positive over zero) or `NaN` (zero over zero). */
  datatype JsPercent = Finite(value: int) | Infinity | NaN

  /** `Math.round((c / t) * 100)` with no zero guard. */
  function RoundJs(c: nat, t: nat): (r: JsPercent)
    ensures r.Finite? <==> t > 0
    ensures r.NaN? <==> t == 0 && c == 0
    ensures r.Finite? && c <= t ==> 0 <= r.value <= 100
  {
    if t > 0 then
      RoundedPercentAtMost100Guard(c, t);
      Finite(RoundedPercent(c, t))
    else if c > 0 then Infinity
    else NaN
  }

  lemma RoundedPercentAtMost100Guard(c: nat, t: nat)
    requires 0 < t
    ensures c <= t ==> RoundedPercent(c, t) <= 100
  {
    if c <= t {
      RoundedPercentAtMost100(c, t);
    }
  }

  /** `p >= threshold` on a JavaScript number: `Infinity` passes every threshold, `NaN` none. */
  predicate AtLeast(p: JsPercent, threshold: int)
  {
    match p
    case Finite(v) => v >= threshold
    case Infinity => true
    case NaN => false
  }

  /** `(c / t) * 100 >= p` on the unrounded quotient, written with cross-multiplication. */
  predicate PercentAtLeast(c: int, t: nat, p: nat)
  {
    if t > 0 then 100 * c >= p * t else c > 0
  }

  /** Passing a threshold unrounded means passing it after `Math.round` too. */
  lemma RoundingKeepsThreshold(c: nat, t: nat, p: nat)
    requires PercentAtLeast(c, t, p)
    ensures AtLeast(RoundJs(c, t), p)
  {
    if t > 0 {
      var r := RoundedPercent(c, t);
      if r < p {
        MulMonotone(2 * t, r + 1, p);
        assert false;
      }
    }
  }

  /** A higher threshold is harder to reach. */
  lemma PercentAtLeastAntitone(c: nat, t: nat, p: nat, q: nat)
    requires p <= q && PercentAtLeast(c, t, q)
    ensures PercentAtLeast(c, t, p)
  {
    if t > 0 {
      MulMonotone(t, p, q);
    }
  }

  /** A larger score reaches every threshold a smaller one reaches. */
  lemma PercentAtLeastMonotone(c1: int, c2: int, t: nat, p: nat)
    requires c1 <= c2 && PercentAtLeast(c1, t, p)
    ensures PercentAtLeast(c2, t, p)
  {
  }

  /** `Math.round(sum / n)` for a positive count: the nearest whole mean, halves rounded up. */
  function RoundedMean(sum: int, n: nat): (r: int)
    requires n > 0
    ensures 2 * n * r <= 2 * sum + n < 2 * n * (r + 1)
  {
    (2 * sum + n) / (2 * n)
  }

  /** `Math.round(x)` on an exact rational. */
  function RoundReal(x: real): (r: int)
    ensures r as real <= x + 0.5 < r as real + 1.0
  {
    (x + 0.5).Floor
  }

  /** A JavaScript number as the unguarded percentage sums see it: a finite value, `Infinity`
      (a positive count over a zero total) or `NaN` (zero over zero). */
  datatype JsNumber = Num(v: real) | PosInf | NotANumber

  /** `(c / t) * 100` with no zero guard. */
  function PercentOf(c: nat, t: nat): (x: JsNumber)
    ensures x.Num? <==> t > 0
    ensures x.NotANumber? <==> t == 0 && c == 0
    ensures x.Num? ==> x.v * t as real == 100.0 * c as real
    ensures x.Num? && c <= t ==> 0.0 <= x.v <= 100.0
  {
    if t > 0 then
      var v := 100.0 * c as real / t as real;
      assert v * t as real == 100.0 * c as real;
      QuotientAtMost100(c, t, v);
      Num(v)
    else if c > 0 then PosInf
    else NotANumber
  }

  lemma QuotientAtMost100(c: nat, t: nat, v: real)
    requires t > 0 && v * t as real == 100.0 * c as real
    ensures 0.0 <= v
    ensures c <= t ==> v <= 100.0
  {
  }

  /** `a + b`: `NaN` absorbs everything, then `Infinity` does. */
  function Plus(a: JsNumber, b: JsNumber): (r: JsNumber)
    ensures r.NotANumber? <==> a.NotANumber? || b.NotANumber?
    ensures r.Num? <==> a.Num? && b.Num?
    ensures r.Num? ==> r.v == a.v + b.v
  {
    if a.NotANumber? || b.NotANumber? then NotANumber
    else if a.PosInf? || b.PosInf? then PosInf
    else Num(a.v + b.v)
  }

  /** `x / n` for a positive count. */
  function Over(x: JsNumber, n: nat): (r: JsNumber)
    requires n > 0
    ensures r.Num? <==> x.Num?
    ensures r.NotANumber? <==> x.NotANumber?
    ensures r.Num? ==> r.v * n as real == x.v
  {
    match x
    case Num(v) => Num(v / n as real)
    case PosInf => PosInf
    case NotANumber => NotANumber
  }

  /** `Math.round(x)`, which keeps `Infinity` and `NaN`. */
  function RoundNumber(x: JsNumber): (r: JsPercent)
    ensures r.Finite? <==> x.Num?
    ensures r.NaN? <==> x.NotANumber?
    ensures r.Finite? ==> r.value as real <= x.v + 0.5 < r.value as real + 1.0
  {
    match x
    case Num(v) => Finite(RoundReal(v))
    case PosInf => Infinity
    case NotANumber => NaN
  }

  /** `x >= p` on a JavaScript number. */
  predicate NumberAtLeast(x: JsNumber, p: nat)
  {
    match x
    case Num(v) => v >= p as real
    case PosInf => true
    case NotANumber => false
  }

  /** Comparing the unguarded quotient with a threshold is the cross-multiplied comparison. */
  lemma PercentOfAtLeast(c: nat, t: nat, p: nat)
    ensures NumberAtLeast(PercentOf(c, t), p) <==> PercentAtLeast(c, t, p)
  {
    if t > 0 {
      var v := PercentOf(c, t).v;
      if v >= p as real {
        assert v * t as real >= p as real * t as real;
      } else {
        assert v * t as real < p as real * t as real;
      }
    }
  }

  /** A whole number within half of a percentage in `[0, 100]` is in `[0, 100]` too. */
  lemma RoundedWithinPercent(x: real, r: int)
    requires 0.0 <= x <= 100.0 && r as real <= x + 0.5 < r as real + 1.0
    ensures 0 <= r <= 100
  {
  }

  /** A mean of values in `[0, 100]` is in `[0, 100]`: from `mean * n == total` and
      `0 <= total <= 100 * n`. */
  lemma MeanWithinPercent(mean: real, n: real, total: real)
    requires n > 0.0 && mean * n == total && 0.0 <= total <= 100.0 * n
    ensures 0.0 <= mean <= 100.0
  {
  }
}

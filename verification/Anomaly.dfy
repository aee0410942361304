/** The 3-sigma rule of the analytics service in exact arithmetic. With n values, S their
    sum and Q the sum of their squares, value > mean + 3 * pstdev is
    d > 0 and d * d > 9 * V for d = n * value - S and V = n * Q - S * S. */
module Anomaly {
  import opened Sums

  function Id(): int -> int { (v: int) => v }

  function Square(): int -> int { (v: int) => v * v }

  function Total(values: seq<int>): int { Sum(values, Id()) }

  /** n times the sum of squares minus the square of the sum: n * n times the variance. */
  function Spread(values: seq<int>): int
  {
    |values| * Sum(values, Square()) - Total(values) * Total(values)
  }

  function Deviation(values: seq<int>, v: int): int
  {
    |values| * v - Total(values)
  }

  predicate AboveThreeSigma(values: seq<int>, v: int)
  {
    Deviation(values, v) > 0 && Deviation(values, v) * Deviation(values, v) > 9 * Spread(values)
  }

  /** The rule with the two guards the service applies first. */
  predicate Flagged(values: seq<int>, v: int)
  {
    |values| >= 3 && Spread(values) > 0 && AboveThreeSigma(values, v)
  }

  function Mark(values: seq<int>): int -> int
  {
    (v: int) => if AboveThreeSigma(values, v) then 1 else 0
  }

  function FlagCount(values: seq<int>): int
  {
    Sum(values, Mark(values))
  }

  // ---- Selectivity --------------------------------------------------------------------

  function Linear(n: int, s: int): int -> int { (v: int) => n * v - s }

  function LinearSquare(n: int, s: int): int -> int { (v: int) => (n * v - s) * (n * v - s) }

  lemma {:induction false} SumLinear(values: seq<int>, n: int, s: int)
    ensures Sum(values, Linear(n, s)) == n * Sum(values, Id()) - s * |values|
  {
    if values == [] {
    } else {
      SumLinear(values[..|values| - 1], n, s);
    }
  }

  lemma LinearSquareStep(n: int, s: int, k: int, q: int, t: int, v: int)
    ensures (n * n * q - 2 * n * s * t + s * s * k) + (n * v - s) * (n * v - s)
         == n * n * (q + v * v) - 2 * n * s * (t + v) + s * s * (k + 1)
  {
  }

  lemma {:induction false} SumLinearSquare(values: seq<int>, n: int, s: int)
    ensures Sum(values, LinearSquare(n, s))
         == n * n * Sum(values, Square()) - 2 * n * s * Sum(values, Id()) + s * s * |values|
  {
    if values == [] {
    } else {
      var k := |values| - 1;
      SumLinearSquare(values[..k], n, s);
      LinearSquareStep(n, s, k, Sum(values[..k], Square()), Sum(values[..k], Id()), values[k]);
    }
  }

  /** The part of a weight that falls on flagged, or on unflagged, values. */
  function On(values: seq<int>, side: bool, w: int -> int): int -> int
  {
    (v: int) => if AboveThreeSigma(values, v) == side then w(v) else 0
  }

  lemma {:induction false} SumSides(part: seq<int>, values: seq<int>, w: int -> int)
    ensures Sum(part, w) == Sum(part, On(values, true, w)) + Sum(part, On(values, false, w))
  {
    if part == [] {
    } else {
      SumSides(part[..|part| - 1], values, w);
    }
  }

  function One(): int -> int { (v: int) => 1 }

  lemma {:induction false} SumOne(part: seq<int>)
    ensures Sum(part, One()) == |part|
  {
    if part == [] {
    } else {
      SumOne(part[..|part| - 1]);
    }
  }

  lemma ProductsOrdered(a: int, b: int, c: int, d: int)
    requires 0 <= a <= b && 0 <= c <= d
    ensures a * c <= b * d
  {
    assert a * c <= b * c && b * c <= b * d;
  }

  lemma NonNegativeFactor(k: int, a: int)
    requires 0 < k && 0 <= k * a
    ensures 0 <= a
  {
    if a < 0 {
      ProductsOrdered(1, k, 1, -a);
    }
  }

  lemma CauchyIdentities(k: int, q: int, c: int, x: int)
    ensures k * (k * (x * x) + q - 2 * (c * x)) == (k * x - c) * (k * x - c) + (k * q - c * c)
    ensures (k + 1) * (q + x * x) - (c + x) * (c + x) == (k * q - c * c) + (k * (x * x) + q - 2 * (c * x))
  {
  }

  lemma SquareIsNonNegative(a: int)
    ensures 0 <= a * a
  {
  }

  /** (c + x)^2 <= (k + 1) * (q + x^2) follows from c^2 <= k * q. */
  lemma CauchyStep(k: int, q: int, c: int, x: int)
    requires 0 <= k && c * c <= k * q && (k == 0 ==> c == 0 && q == 0)
    ensures (c + x) * (c + x) <= (k + 1) * (q + x * x)
  {
    if k > 0 {
      CauchyIdentities(k, q, c, x);
      SquareIsNonNegative(k * x - c);
      NonNegativeFactor(k, k * (x * x) + q - 2 * (c * x));
    }
  }

  /** Cauchy's inequality on one side: (sum of d)^2 <= count * (sum of d^2). */
  lemma {:induction false} Cauchy(part: seq<int>, values: seq<int>, side: bool, n: int, s: int)
    ensures var k := Sum(part, On(values, side, One()));
            var c := Sum(part, On(values, side, Linear(n, s)));
            var q := Sum(part, On(values, side, LinearSquare(n, s)));
            0 <= k && c * c <= k * q && (k == 0 ==> c == 0 && q == 0)
  {
    if part == [] {
    } else {
      var m := |part| - 1;
      Cauchy(part[..m], values, side, n, s);
      if AboveThreeSigma(values, part[m]) == side {
        CauchyStep(Sum(part[..m], On(values, side, One())), Sum(part[..m], On(values, side, LinearSquare(n, s))),
                   Sum(part[..m], On(values, side, Linear(n, s))), n * part[m] - s);
      }
    }
  }

  lemma SquareLess(a: int, b: int)
    requires 0 <= a < b
    ensures a * a < b * b
  {
    assert a * a <= a * b && a * b < b * b;
  }

  lemma RootsOrdered(a: int, b: int)
    requires 0 <= a && b * b <= a * a
    ensures b <= a
  {
    if a < b {
      SquareLess(a, b);
    }
  }

  lemma FlaggedIdentities(k: int, c: int, d: int, w: int)
    ensures (c * d) * (c * d) == (c * c) * (d * d)
    ensures (9 * (k * w)) * (9 * (k * w)) == (9 * (k * k * w)) * (9 * w)
    ensures (c + d) * (c + d) == c * c + 2 * (c * d) + d * d
    ensures (k + 1) * (k + 1) * w == k * k * w + 2 * (k * w) + w
  {
  }

  /** From c >= 0, c^2 >= 9 k^2 w and d > 0, d^2 > 9 w: (c + d)^2 > 9 (k + 1)^2 w. */
  lemma FlaggedStep(k: int, c: int, d: int, w: int)
    requires 0 <= k && 0 <= c && 0 < d && 0 <= w && c * c >= 9 * (k * k * w) && d * d > 9 * w
    ensures (c + d) * (c + d) > 9 * ((k + 1) * (k + 1) * w)
  {
    FlaggedIdentities(k, c, d, w);
    SquareIsNonNegative(k);
    ProductsOrdered(0, k * k, 0, w);
    ProductsOrdered(9 * (k * k * w), c * c, 9 * w, d * d);
    ProductsOrdered(0, c, 0, d);
    RootsOrdered(c * d, 9 * (k * w));
  }

  /** The flagged deviations add up to more than 3 sigma each. */
  lemma {:induction false} FlaggedSum(part: seq<int>, values: seq<int>)
    requires 0 <= Spread(values)
    ensures var k := Sum(part, On(values, true, One()));
            var c := Sum(part, On(values, true, Linear(|values|, Total(values))));
            && 0 <= k && 0 <= c && c * c >= 9 * (k * k * Spread(values))
            && (0 < k ==> c * c > 9 * (k * k * Spread(values)))
  {
    if part == [] {
    } else {
      var m := |part| - 1;
      FlaggedSum(part[..m], values);
      if AboveThreeSigma(values, part[m]) {
        FlaggedStep(Sum(part[..m], On(values, true, One())),
                    Sum(part[..m], On(values, true, Linear(|values|, Total(values)))),
                    Deviation(values, part[m]), Spread(values));
      }
    }
  }

  lemma ScaleUp(k: int, a: int, b: int)
    requires 0 <= k && a <= b
    ensures k * a <= k * b
  {
  }

  lemma SamuelsonIdentities(n: int, f: int, cc: int, q1: int, q2: int, w: int)
    requires q1 + q2 == n * w
    ensures (n - f) * cc + f * cc == n * cc
    ensures (n - f) * (f * q1) + f * ((n - f) * q2) == n * (f * (n - f) * w)
    ensures f * (n - f) * w == f * ((n - f) * w) && 9 * (f * f * w) == f * (9 * (f * w))
    ensures 9 * (f * w) == w * (9 * f) && (n - f) * w == w * (n - f)
  {
    assert (n - f) * (f * q1) + f * ((n - f) * q2) == f * (n - f) * (q1 + q2);
    assert f * (n - f) * (n * w) == n * (f * (n - f) * w);
  }

  lemma CancelFactor(k: int, a: int, b: int)
    requires 0 < k && k * a <= k * b
    ensures a <= b
  {
    NonNegativeFactor(k, b - a);
  }

  lemma CancelStrict(k: int, a: int, b: int)
    requires 0 <= k && k * a < k * b
    ensures a < b
  {
    if b <= a {
      ScaleUp(k, b, a);
    }
  }

  /** Sides, Cauchy and the flagged sum combined: with f flagged of n, total deviation zero
      and total squared deviation n * V. */
  lemma Samuelson(n: int, f: int, c: int, q1: int, q2: int, w: int)
    requires 0 < f <= n && 0 <= w && c * c > 9 * (f * f * w)
    requires c * c <= f * q1 && c * c <= (n - f) * q2 && q1 + q2 == n * w
    ensures 10 * f < n
  {
    // f (n - f) (q1 + q2) >= (n - f) c^2 + f c^2 = n c^2
    ProductsOrdered(0, n - f, c * c, f * q1);
    ProductsOrdered(0, f, c * c, (n - f) * q2);
    ScaleUp(n - f, c * c, f * q1);
    ScaleUp(f, c * c, (n - f) * q2);
    SamuelsonIdentities(n, f, c * c, q1, q2, w);
    CancelFactor(n, c * c, f * (n - f) * w);
    // f (n - f) w >= c^2 > 9 f f w
    CancelStrict(f, 9 * (f * w), (n - f) * w);
    CancelStrict(w, 9 * f, n - f);
  }

  lemma OppositeSquares(a: int, b: int)
    requires a + b == 0
    ensures a * a == b * b
  {
    assert b == -a;
  }

  lemma DeviationsCancel(values: seq<int>)
    ensures Sum(values, Linear(|values|, Total(values))) == 0
  {
    SumLinear(values, |values|, Total(values));
    assert |values| * Total(values) == Total(values) * |values|;
  }

  lemma SpreadIdentity(n: int, s: int, q: int)
    ensures n * n * q - 2 * n * s * s + s * s * n == n * (n * q - s * s)
  {
  }

  lemma SpreadIsDeviation(values: seq<int>)
    ensures Sum(values, LinearSquare(|values|, Total(values))) == |values| * Spread(values)
  {
    SumLinearSquare(values, |values|, Total(values));
    SpreadIdentity(|values|, Total(values), Sum(values, Square()));
  }

  /** Both sides together: all n values, deviation zero, squared deviation n * V. */
  lemma SidesAddUp(values: seq<int>)
    ensures var n, s := |values|, Total(values);
            && Sum(values, On(values, true, One())) + Sum(values, On(values, false, One())) == n
            && Sum(values, On(values, true, Linear(n, s))) + Sum(values, On(values, false, Linear(n, s))) == 0
            && Sum(values, On(values, true, LinearSquare(n, s))) + Sum(values, On(values, false, LinearSquare(n, s)))
               == n * Spread(values)
  {
    SumOne(values);
    SumSides(values, values, One());
    DeviationsCancel(values);
    SumSides(values, values, Linear(|values|, Total(values)));
    SpreadIsDeviation(values);
    SumSides(values, values, LinearSquare(|values|, Total(values)));
  }

  lemma {:induction false} MarkIsOn(part: seq<int>, values: seq<int>)
    ensures Sum(part, Mark(values)) == Sum(part, On(values, true, One()))
  {
    if part == [] {
    } else {
      MarkIsOn(part[..|part| - 1], values);
    }
  }

  lemma {:induction false} SquaresAddUp(part: seq<int>, n: int, s: int)
    ensures 0 <= Sum(part, LinearSquare(n, s))
  {
    if part == [] {
    } else {
      SquaresAddUp(part[..|part| - 1], n, s);
      SquareIsNonNegative(n * part[|part| - 1] - s);
    }
  }

  lemma SpreadIsNonNegative(values: seq<int>)
    ensures 0 <= Spread(values)
  {
    if values != [] {
      SpreadIsDeviation(values);
      SquaresAddUp(values, |values|, Total(values));
      NonNegativeFactor(|values|, Spread(values));
    }
  }

  /** Selectivity: of n values, fewer than a tenth are flagged. */
  lemma FewerThanATenth(values: seq<int>)
    requires values != []
    ensures 0 <= FlagCount(values) && 10 * FlagCount(values) < |values|
  {
    var n, s, f := |values|, Total(values), FlagCount(values);
    SidesAddUp(values);
    SpreadIsNonNegative(values);
    FlaggedSum(values, values);
    MarkIsOn(values, values);
    Cauchy(values, values, true, n, s);
    Cauchy(values, values, false, n, s);
    var c1, c2 := Sum(values, On(values, true, Linear(n, s))), Sum(values, On(values, false, Linear(n, s)));
    OppositeSquares(c1, c2);
    assert Sum(values, On(values, false, One())) == n - f;
    if 0 < f {
      Samuelson(n, f, c1, Sum(values, On(values, true, LinearSquare(n, s))),
                Sum(values, On(values, false, LinearSquare(n, s))), Spread(values));
    }
  }
}

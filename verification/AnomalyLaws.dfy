/** Consequences of the selectivity bound: it is exact, the service's guards change nothing,
    and the flags do not depend on order, offset or unit. */
module AnomalyLaws {
  import opened Sums
  import opened Anomaly

  // ---- The bound is exact --------------------------------------------------------------

  /** f days of spend 1 among n. */
  function Spikes(n: nat, f: nat): seq<int>
  {
    seq(n, i => if i < f then 1 else 0)
  }

  lemma {:induction false} SumSpikes(n: nat, f: nat, w: int -> int)
    requires f <= n
    ensures Sum(Spikes(n, f), w) == f * w(1) + (n - f) * w(0)
  {
    if n == 0 {
    } else {
      if f < n {
        assert Spikes(n, f)[..n - 1] == Spikes(n - 1, f);
        SumSpikes(n - 1, f, w);
        assert (n - f) * w(0) == (n - 1 - f) * w(0) + w(0);
      } else {
        assert Spikes(n, f)[..n - 1] == Spikes(n - 1, f - 1);
        SumSpikes(n - 1, f - 1, w);
        assert f * w(1) == (f - 1) * w(1) + w(1);
      }
    }
  }

  lemma StrictScale(k: int, a: int, b: int)
    requires 0 < k && a < b
    ensures k * a < k * b
  {
    ScaleUp(k, a + 1, b);
    assert k * (a + 1) == k * a + k;
  }

  lemma SpikesAreFlagged(n: nat, f: nat)
    requires 10 * f < n
    ensures FlagCount(Spikes(n, f)) == f
  {
    var values := Spikes(n, f);
    SumSpikes(n, f, Id());
    SumSpikes(n, f, Square());
    SumSpikes(n, f, Mark(values));
    var g := n - f;
    assert Total(values) == f && Spread(values) == f * g by {
      assert n * f - f * f == f * g;
    }
    assert Deviation(values, 1) == g && Deviation(values, 0) == 0 - f;
    StrictScale(g, 9 * f, g);
    assert 9 * (f * g) == g * (9 * f);
    assert AboveThreeSigma(values, 1) && !AboveThreeSigma(values, 0);
  }

  /** The numbers of days that can be flagged among n are exactly those below n / 10. */
  lemma FlagCountsAreExactlyThoseBelowATenth(n: nat, f: int)
    requires 0 < n
    ensures (exists values: seq<int> :: |values| == n && FlagCount(values) == f) <==> 0 <= f && 10 * f < n
  {
    if values: seq<int> :| |values| == n && FlagCount(values) == f {
      FewerThanATenth(values);
    }
    if 0 <= f && 10 * f < n {
      SpikesAreFlagged(n, f);
    }
  }

  // ---- The guards ----------------------------------------------------------------------

  lemma {:induction false} MarksAddUp(part: seq<int>, values: seq<int>)
    ensures 0 <= Sum(part, Mark(values))
    ensures forall v :: v in part && AboveThreeSigma(values, v) ==> 0 < Sum(part, Mark(values))
  {
    if part == [] {
    } else {
      var k := |part| - 1;
      assert part == part[..k] + [part[k]];
      MarksAddUp(part[..k], values);
    }
  }

  lemma SquareIsPositive(a: int)
    requires 0 < a
    ensures 0 < a * a
  {
  }

  lemma {:induction false} SquaresDominate(part: seq<int>, n: int, s: int, v: int)
    requires v in part
    ensures (n * v - s) * (n * v - s) <= Sum(part, LinearSquare(n, s))
  {
    var k := |part| - 1;
    assert part == part[..k] + [part[k]];
    SquaresAddUp(part[..k], n, s);
    SquareIsNonNegative(n * part[k] - s);
    if part[k] == v {
    } else {
      SquaresDominate(part[..k], n, s, v);
    }
  }

  lemma SpreadIsPositive(values: seq<int>, v: int)
    requires v in values && AboveThreeSigma(values, v)
    ensures 0 < Spread(values)
  {
    var n, s := |values|, Total(values);
    SpreadIsDeviation(values);
    SpreadIsNonNegative(values);
    SquaresDominate(values, n, s, v);
    SquareIsPositive(n * v - s);
  }

  /** Skipping short and constant histories never suppresses a flag. */
  lemma GuardsAreRedundant(values: seq<int>, v: int)
    requires v in values
    ensures Flagged(values, v) <==> AboveThreeSigma(values, v)
    ensures |values| <= 10 ==> !Flagged(values, v)
  {
    FewerThanATenth(values);
    MarksAddUp(values, values);
    if AboveThreeSigma(values, v) {
      SpreadIsPositive(values, v);
    }
  }

  // ---- Invariance ----------------------------------------------------------------------

  lemma FlagsIgnoreOrder(a: seq<int>, b: seq<int>, v: int)
    requires multiset(a) == multiset(b)
    ensures Flagged(a, v) <==> Flagged(b, v)
  {
    SumPermute(a, b, Id());
    SumPermute(a, b, Square());
    SumPermute(a, b, One());
    SumOne(a);
    SumOne(b);
  }

  function Affine(values: seq<int>, k: int, c: int): seq<int>
  {
    seq(|values|, i requires 0 <= i < |values| => k * values[i] + c)
  }

  lemma AffineSquareStep(k: int, c: int, q: int, s: int, n: int, v: int)
    ensures (k * k * q + 2 * k * c * s + c * c * n) + (k * v + c) * (k * v + c)
         == k * k * (q + v * v) + 2 * k * c * (s + v) + c * c * (n + 1)
    ensures (k * s + c * n) + (k * v + c) == k * (s + v) + c * (n + 1)
  {
  }

  lemma {:induction false} SumAffine(values: seq<int>, k: int, c: int)
    ensures Total(Affine(values, k, c)) == k * Total(values) + c * |values|
    ensures Sum(Affine(values, k, c), Square())
         == k * k * Sum(values, Square()) + 2 * k * c * Total(values) + c * c * |values|
  {
    if values == [] {
    } else {
      var m := |values| - 1;
      assert Affine(values, k, c)[..m] == Affine(values[..m], k, c);
      SumAffine(values[..m], k, c);
      AffineSquareStep(k, c, Sum(values[..m], Square()), Total(values[..m]), m, values[m]);
    }
  }

  lemma SquareOfSum(a: int, b: int)
    ensures (a + b) * (a + b) == a * a + 2 * (a * b) + b * b
  {
  }

  lemma AffineDeviation(n: int, s: int, k: int, c: int, v: int)
    ensures n * (k * v + c) - (k * s + c * n) == k * (n * v - s)
  {
  }

  lemma AffineSpread(n: int, s: int, q: int, k: int, c: int)
    ensures n * (k * k * q + 2 * k * c * s + c * c * n) - (k * s + c * n) * (k * s + c * n) == k * k * (n * q - s * s)
  {
    SquareOfSum(k * s, c * n);
    assert (k * s) * (k * s) == k * k * (s * s);
    assert (k * s) * (c * n) == n * (k * c * s);
    assert (c * n) * (c * n) == n * (c * c * n);
    assert n * (k * k * q) == k * k * (n * q);
    assert n * (k * k * q + 2 * k * c * s + c * c * n) == n * (k * k * q) + 2 * (n * (k * c * s)) + n * (c * c * n);
    assert k * k * (n * q - s * s) == k * k * (n * q) - k * k * (s * s);
  }

  lemma ScaledSquares(k: int, d: int, w: int)
    ensures (k * d) * (k * d) == k * k * (d * d) && 9 * (k * k * w) == k * k * (9 * w)
  {
  }

  lemma ScalingKeepsOrder(k: int, a: int, b: int)
    requires 0 < k
    ensures k * a > k * b <==> a > b
  {
    if a > b {
      StrictScale(k, b, a);
    } else {
      ScaleUp(k, a, b);
    }
  }

  lemma ScaledRule(k: int, d: int, w: int)
    requires 0 < k
    ensures k * k * w > 0 <==> w > 0
    ensures k * d > 0 <==> d > 0
    ensures (k * d) * (k * d) > 9 * (k * k * w) <==> d * d > 9 * w
  {
    SquareIsPositive(k);
    ScalingKeepsOrder(k, d, 0);
    ScalingKeepsOrder(k * k, w, 0);
    ScalingKeepsOrder(k * k, d * d, 9 * w);
    ScaledSquares(k, d, w);
  }

  /** The flags survive any change of offset and of unit. */
  lemma FlagsIgnoreOffsetAndUnit(values: seq<int>, k: int, c: int, v: int)
    requires 0 < k
    ensures Flagged(Affine(values, k, c), k * v + c) <==> Flagged(values, v)
  {
    SumAffine(values, k, c);
    AffineDeviation(|values|, Total(values), k, c, v);
    AffineSpread(|values|, Total(values), Sum(values, Square()), k, c);
    ScaledRule(k, Deviation(values, v), Spread(values));
  }

  // ---- The rule ------------------------------------------------------------------------

  lemma ProductPositive(x: real, y: real)
    requires 0.0 < x && 0.0 < y
    ensures 0.0 < x * y
  {
  }

  lemma SquaresCompare(x: real, y: real)
    requires 0.0 <= y
    ensures x > y <==> x > 0.0 && x * x > y * y
  {
    assert x * x - y * y == (x - y) * (x + y);
    if x > y {
      ProductPositive(x - y, x + y);
    } else if x > 0.0 && y > x {
      ProductPositive(y - x, x + y);
      assert (y - x) * (x + y) == -((x - y) * (x + y));
    }
  }

  lemma ScaledVariance(n: real, sigma: real, w: real)
    requires 0.0 < n && n * n * n * (sigma * sigma) == n * w
    ensures n * n * (sigma * sigma) == w
  {
    assert n * (n * n * (sigma * sigma) - w) == 0.0;
  }

  /** The rule on numbers: d is n times a value's distance from the mean, w is n * n times the
      variance. */
  lemma RuleOnNumbers(n: real, d: real, w: real, sigma: real)
    requires 0.0 < n && 0.0 <= sigma && n * n * (sigma * sigma) == w
    ensures d > 3.0 * (n * sigma) <==> d > 0.0 && d * d > 9.0 * w
  {
    var y := n * sigma;
    assert y * y == n * n * (sigma * sigma);
    assert (3.0 * y) * (3.0 * y) == 9.0 * (y * y);
    SquaresCompare(d, 3.0 * y);
  }

  lemma RealSquare(d: int)
    ensures (d * d) as real == d as real * d as real
  {
  }

  lemma RealProduct(n: int, w: int)
    ensures (n * w) as real == n as real * w as real
  {
  }

  /** sigma is the population deviation of n values whose n-fold distances from the mean have
      squares that sum to `squares`. */
  ghost predicate IsDeviation(sigma: real, n: int, squares: int)
  {
    0.0 <= sigma && n as real * n as real * n as real * (sigma * sigma) == squares as real
  }

  /** v is above the mean of n values of that total by more than three sigma. */
  ghost predicate IsAbove(v: int, n: int, total: int, sigma: real)
    requires 0 < n
  {
    v as real > total as real / n as real + 3.0 * sigma
  }

  lemma Unscaled(n: real, v: real, total: real, sigma: real)
    requires 0.0 < n
    ensures n * v > total + 3.0 * (n * sigma) <==> v > total / n + 3.0 * sigma
  {
    var gap := v - total / n - 3.0 * sigma;
    assert n * (total / n) == total;
    assert n * gap == n * v - total - 3.0 * (n * sigma);
    if gap > 0.0 {
      ProductPositive(n, gap);
    } else if gap < 0.0 {
      ProductPositive(n, -gap);
      assert n * -gap == -(n * gap);
    }
  }

  lemma RuleOnSums(n: int, v: int, total: int, d: int, w: int, squares: int, sigma: real)
    requires 0 < n && d == n * v - total && squares == n * w && IsDeviation(sigma, n, squares)
    ensures d > 0 && d * d > 9 * w <==> IsAbove(v, n, total, sigma)
  {
    RealProduct(n, w);
    RealProduct(n, v);
    RealSquare(d);
    ScaledVariance(n as real, sigma, w as real);
    RuleOnNumbers(n as real, d as real, w as real, sigma);
    Unscaled(n as real, v as real, total as real, sigma);
  }

  /** The integer rule is the one with mean and population deviation. */
  lemma RuleIsThreeSigma(values: seq<int>, v: int, sigma: real)
    requires values != [] && IsDeviation(sigma, |values|, Sum(values, LinearSquare(|values|, Total(values))))
    ensures AboveThreeSigma(values, v) <==> IsAbove(v, |values|, Total(values), sigma)
  {
    SpreadIsDeviation(values);
    RuleOnSums(|values|, v, Total(values), Deviation(values, v), Spread(values),
               Sum(values, LinearSquare(|values|, Total(values))), sigma);
  }
}

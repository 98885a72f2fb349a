/** Sums, means and squared deviations of real sequences, as the statistics compute them. */
module RealStats {
  function SumR(xs: seq<real>): real {
    if xs == [] then 0.0 else xs[0] + SumR(xs[1..])
  }

  /** The sum of the squared differences from `m`. */
  function SquaredDeviations(xs: seq<real>, m: real): real {
    if xs == [] then 0.0 else (xs[0] - m) * (xs[0] - m) + SquaredDeviations(xs[1..], m)
  }

  function MinR(xs: seq<real>): real
    requires xs != []
  {
    if |xs| == 1 then xs[0]
    else if xs[0] <= MinR(xs[1..]) then xs[0] else MinR(xs[1..])
  }

  function MaxR(xs: seq<real>): real
    requires xs != []
  {
    if |xs| == 1 then xs[0]
    else if xs[0] > MaxR(xs[1..]) then xs[0] else MaxR(xs[1..])
  }

  function Mean(xs: seq<real>): real
    requires xs != []
  {
    SumR(xs) / |xs| as real
  }

  /** The variance around the mean, with the count as divisor. */
  function Variance(xs: seq<real>): real
    requires xs != []
  {
    SquaredDeviations(xs, Mean(xs)) / |xs| as real
  }

  predicate Within(xs: seq<real>, lo: real, hi: real) {
    forall i :: 0 <= i < |xs| ==> lo <= xs[i] <= hi
  }

  lemma {:induction false} MinMaxAreBounds(xs: seq<real>)
    requires xs != []
    ensures MinR(xs) in xs && MaxR(xs) in xs
    ensures Within(xs, MinR(xs), MaxR(xs))
  {
    if |xs| == 1 {
    } else {
      MinMaxAreBounds(xs[1..]);
      forall i | 1 <= i < |xs| ensures MinR(xs) <= xs[i] <= MaxR(xs) {
        assert xs[i] == xs[1..][i - 1];
      }
    }
  }

  // Multiples by a count

  /** `v` added up `n` times. */
  function Scale(n: nat, v: real): real {
    if n == 0 then 0.0 else v + Scale(n - 1, v)
  }

  lemma {:induction false} ScaleIsProduct(n: nat, v: real)
    ensures Scale(n, v) == n as real * v
  {
    if n == 0 {
    } else {
      ScaleIsProduct(n - 1, v);
    }
  }

  lemma {:induction false} ScaleAdds(n: nat, a: real, b: real)
    ensures Scale(n, a + b) == Scale(n, a) + Scale(n, b)
  {
    if n == 0 {
    } else {
      ScaleAdds(n - 1, a, b);
    }
  }

  lemma {:induction false} ScaleMonotone(n: nat, a: real, b: real)
    requires n > 0
    ensures a < b <==> Scale(n, a) < Scale(n, b)
  {
    if n == 1 {
    } else {
      ScaleMonotone(n - 1, a, b);
    }
  }

  lemma ScaledQuotient(n: nat, q: real, v: real)
    requires n > 0 && v == q / n as real
    ensures Scale(n, v) == q
  {
    ScaleIsProduct(n, v);
  }

  lemma MeanScaled(xs: seq<real>)
    requires xs != []
    ensures Scale(|xs|, Mean(xs)) == SumR(xs)
  {
    ScaledQuotient(|xs|, SumR(xs), Mean(xs));
  }

  lemma VarianceScaled(xs: seq<real>)
    requires xs != []
    ensures Scale(|xs|, Variance(xs)) == SquaredDeviations(xs, Mean(xs))
  {
    ScaledQuotient(|xs|, SquaredDeviations(xs, Mean(xs)), Variance(xs));
  }

  // Sums of a constant and a linear term

  lemma Distribute(k: real, a: real, b: real)
    ensures k * (a + b) == k * a + k * b
  {
  }

  /** The sum of `k` times each value's distance from `mu`. */
  function Tilt(xs: seq<real>, mu: real, k: real): real {
    if xs == [] then 0.0 else k * (xs[0] - mu) + Tilt(xs[1..], mu, k)
  }

  lemma {:induction false} TiltIs(xs: seq<real>, mu: real, k: real)
    ensures Tilt(xs, mu, k) == k * (SumR(xs) - Scale(|xs|, mu))
  {
    if xs == [] {
    } else {
      TiltIs(xs[1..], mu, k);
      Distribute(k, xs[0] - mu, SumR(xs[1..]) - Scale(|xs| - 1, mu));
    }
  }

  lemma NoTilt(xs: seq<real>, mu: real, k: real)
    requires SumR(xs) == Scale(|xs|, mu)
    ensures Tilt(xs, mu, k) == 0.0
  {
    TiltIs(xs, mu, k);
  }

  lemma ShiftTerm(x: real, mu: real, m: real, k: real, gap: real)
    requires k == 2.0 * (mu - m) && gap == (mu - m) * (mu - m)
    ensures (x - m) * (x - m) == (x - mu) * (x - mu) + k * (x - mu) + gap
  {
    assert k * (x - mu) == 2.0 * ((mu - m) * (x - mu));
  }

  lemma {:induction false} ShiftSum(xs: seq<real>, mu: real, m: real, k: real, gap: real)
    requires k == 2.0 * (mu - m) && gap == (mu - m) * (mu - m)
    ensures SquaredDeviations(xs, m) == SquaredDeviations(xs, mu) + Tilt(xs, mu, k) + Scale(|xs|, gap)
  {
    if xs == [] {
    } else {
      var d, e, t := (xs[0] - m) * (xs[0] - m), (xs[0] - mu) * (xs[0] - mu), k * (xs[0] - mu);
      assert d == e + t + gap by { ShiftTerm(xs[0], mu, m, k, gap); }
      ShiftSum(xs[1..], mu, m, k, gap);
    }
  }

  /** Measuring from any point adds, for each value, the square of its distance from the mean. */
  lemma DeviationsFromMean(xs: seq<real>, mu: real, m: real, gap: real)
    requires xs != [] && mu == Mean(xs) && gap == (mu - m) * (mu - m)
    ensures SquaredDeviations(xs, m) == SquaredDeviations(xs, mu) + Scale(|xs|, gap)
  {
    MeanScaled(xs);
    ShiftSum(xs, mu, m, 2.0 * (mu - m), gap);
    NoTilt(xs, mu, 2.0 * (mu - m));
  }

  /** The products of each value's gaps to the two ends of a range. */
  function Gaps(xs: seq<real>, lo: real, hi: real): real {
    if xs == [] then 0.0 else (hi - xs[0]) * (xs[0] - lo) + Gaps(xs[1..], lo, hi)
  }

  lemma ProductNonNegative(a: real, b: real)
    requires a >= 0.0 && b >= 0.0
    ensures a * b >= 0.0
  {
  }

  lemma {:induction false} GapsNonNegative(xs: seq<real>, lo: real, hi: real)
    requires Within(xs, lo, hi)
    ensures Gaps(xs, lo, hi) >= 0.0
  {
    if xs == [] {
    } else {
      GapsNonNegative(xs[1..], lo, hi);
      ProductNonNegative(hi - xs[0], xs[0] - lo);
    }
  }

  lemma GapTerm(x: real, mu: real, lo: real, hi: real, k: real, bound: real)
    requires k == hi + lo - 2.0 * mu && bound == (hi - mu) * (mu - lo)
    ensures (x - mu) * (x - mu) + (hi - x) * (x - lo) == bound + k * (x - mu)
  {
  }

  lemma {:induction false} GapSum(xs: seq<real>, mu: real, lo: real, hi: real, k: real, bound: real)
    requires k == hi + lo - 2.0 * mu && bound == (hi - mu) * (mu - lo)
    ensures SquaredDeviations(xs, mu) + Gaps(xs, lo, hi) == Tilt(xs, mu, k) + Scale(|xs|, bound)
  {
    if xs == [] {
    } else {
      var d, g, t := (xs[0] - mu) * (xs[0] - mu), (hi - xs[0]) * (xs[0] - lo), k * (xs[0] - mu);
      assert d + g == bound + t by { GapTerm(xs[0], mu, lo, hi, k, bound); }
      GapSum(xs[1..], mu, lo, hi, k, bound);
    }
  }

  lemma DeviationsWithin(xs: seq<real>, mu: real, lo: real, hi: real, bound: real)
    requires SumR(xs) == Scale(|xs|, mu) && Within(xs, lo, hi) && bound == (hi - mu) * (mu - lo)
    ensures SquaredDeviations(xs, mu) <= Scale(|xs|, bound)
  {
    GapSum(xs, mu, lo, hi, hi + lo - 2.0 * mu, bound);
    NoTilt(xs, mu, hi + lo - 2.0 * mu);
    GapsNonNegative(xs, lo, hi);
  }

  // The bounds

  lemma {:induction false} SumBetween(xs: seq<real>, lo: real, hi: real)
    requires Within(xs, lo, hi)
    ensures Scale(|xs|, lo) <= SumR(xs) <= Scale(|xs|, hi)
  {
    if xs == [] {
    } else {
      SumBetween(xs[1..], lo, hi);
    }
  }

  lemma MeanWithin(xs: seq<real>, lo: real, hi: real)
    requires xs != [] && Within(xs, lo, hi)
    ensures lo <= Mean(xs) <= hi
  {
    SumBetween(xs, lo, hi);
    MeanScaled(xs);
    ScaleMonotone(|xs|, Mean(xs), lo);
    ScaleMonotone(|xs|, hi, Mean(xs));
  }

  lemma VarianceBelow(xs: seq<real>, mu: real, lo: real, hi: real, bound: real, cap: real)
    requires xs != [] && Within(xs, lo, hi) && mu == Mean(xs)
    requires bound == (hi - mu) * (mu - lo) && bound <= cap
    ensures Variance(xs) <= cap
  {
    MeanScaled(xs);
    VarianceScaled(xs);
    DeviationsWithin(xs, mu, lo, hi, bound);
    ScaleMonotone(|xs|, cap, bound);
    ScaleMonotone(|xs|, cap, Variance(xs));
  }

  /** In any range that holds the values, the mean's distances to the two ends bound the variance. */
  lemma VarianceBound(xs: seq<real>, lo: real, hi: real)
    requires xs != [] && Within(xs, lo, hi)
    ensures Variance(xs) <= (hi - Mean(xs)) * (Mean(xs) - lo)
  {
    var bound := (hi - Mean(xs)) * (Mean(xs) - lo);
    VarianceBelow(xs, Mean(xs), lo, hi, bound, bound);
  }

  lemma VarianceWithinSpread(xs: seq<real>, lo: real, hi: real)
    requires xs != [] && lo == MinR(xs) && hi == MaxR(xs)
    ensures Variance(xs) <= (hi - Mean(xs)) * (Mean(xs) - lo)
  {
    MinMaxAreBounds(xs);
    VarianceBound(xs, lo, hi);
  }

  lemma QuarterOfRange(hi: real, x: real, lo: real, bound: real, cap: real)
    requires bound == (hi - x) * (x - lo) && cap == (hi - lo) * (hi - lo) / 4.0
    ensures bound <= cap
  {
    var gap := (hi - x) - (x - lo);
    assert gap * gap >= 0.0;
    assert gap * gap == (hi - lo) * (hi - lo) - 4.0 * bound;
  }

  lemma VarianceWithinRange(xs: seq<real>, lo: real, hi: real)
    requires xs != [] && lo == MinR(xs) && hi == MaxR(xs)
    ensures Variance(xs) <= (hi - lo) * (hi - lo) / 4.0
  {
    MinMaxAreBounds(xs);
    var mu := Mean(xs);
    var bound, cap := (hi - mu) * (mu - lo), (hi - lo) * (hi - lo) / 4.0;
    QuarterOfRange(hi, mu, lo, bound, cap);
    VarianceBelow(xs, mu, lo, hi, bound, cap);
  }

  predicate NonNegative(xs: seq<real>) {
    forall i :: 0 <= i < |xs| ==> xs[i] >= 0.0
  }

  lemma {:induction false} PartsOfSum(xs: seq<real>)
    requires NonNegative(xs)
    ensures SumR(xs) >= 0.0 && Within(xs, 0.0, SumR(xs))
  {
    if xs == [] {
    } else {
      PartsOfSum(xs[1..]);
      forall i | 0 <= i < |xs| ensures 0.0 <= xs[i] <= SumR(xs) {
        if i > 0 { assert xs[i] == xs[1..][i - 1]; }
      }
    }
  }

  lemma BalanceTerm(n: real, mu: real, s: real)
    requires s == n * mu
    ensures (s - mu) * (mu - 0.0) == (n - 1.0) * (mu * mu)
  {
  }

  /** Values that are not negative lie between zero and their sum, and that bounds their variance. */
  lemma VarianceWithinBalance(xs: seq<real>)
    requires xs != [] && NonNegative(xs)
    ensures Variance(xs) <= (|xs| as real - 1.0) * (Mean(xs) * Mean(xs))
  {
    PartsOfSum(xs);
    VarianceBound(xs, 0.0, SumR(xs));
    BalanceTerm(|xs| as real, Mean(xs), SumR(xs));
  }

  lemma ProductPositive(a: real, b: real, d: real)
    requires a > 0.0 && b > 0.0 && d == a * b
    ensures d > 0.0
  {
  }

  lemma SquareSign(x: real, d: real)
    requires d == x * x
    ensures if x == 0.0 then d == 0.0 else d > 0.0
  {
    if x > 0.0 {
      ProductPositive(x, x, d);
    } else if x < 0.0 {
      ProductPositive(-x, -x, d);
    }
  }

  lemma {:induction false} DeviationsVanish(xs: seq<real>, m: real)
    ensures SquaredDeviations(xs, m) >= 0.0
    ensures SquaredDeviations(xs, m) == 0.0 <==> Within(xs, m, m)
  {
    if xs == [] {
    } else {
      DeviationsVanish(xs[1..], m);
      var d := (xs[0] - m) * (xs[0] - m);
      SquareSign(xs[0] - m, d);
      assert Within(xs, m, m) <==> xs[0] == m && Within(xs[1..], m, m) by {
        assert forall i :: 0 < i < |xs| ==> xs[i] == xs[1..][i - 1];
        assert forall i :: 0 <= i < |xs[1..]| ==> xs[1..][i] == xs[i + 1];
      }
    }
  }

  /** The variance is never negative, and zero exactly when all values are the same. */
  lemma VarianceZeroIff(xs: seq<real>)
    requires xs != []
    ensures Variance(xs) >= 0.0
    ensures Variance(xs) == 0.0 <==> forall i, j :: 0 <= i < |xs| && 0 <= j < |xs| ==> xs[i] == xs[j]
  {
    DeviationsVanish(xs, Mean(xs));
    VarianceScaled(xs);
    ScaleIsProduct(|xs|, 0.0);
    ScaleMonotone(|xs|, Variance(xs), 0.0);
    ScaleMonotone(|xs|, 0.0, Variance(xs));
    if forall i, j :: 0 <= i < |xs| && 0 <= j < |xs| ==> xs[i] == xs[j] {
      MeanWithin(xs, xs[0], xs[0]);
    }
  }

  // What the sums and the variance are, said differently

  lemma {:induction false} SumRConcat(xs: seq<real>, ys: seq<real>)
    ensures SumR(xs + ys) == SumR(xs) + SumR(ys)
  {
    if xs == [] {
      assert xs + ys == ys;
    } else {
      SumRConcat(xs[1..], ys);
      assert (xs + ys)[1..] == xs[1..] + ys;
    }
  }

  function SumOfSquares(xs: seq<real>): real {
    if xs == [] then 0.0 else xs[0] * xs[0] + SumOfSquares(xs[1..])
  }

  lemma {:induction false} DeviationsFromZero(xs: seq<real>)
    ensures SquaredDeviations(xs, 0.0) == SumOfSquares(xs)
  {
    if xs == [] {
    } else {
      DeviationsFromZero(xs[1..]);
    }
  }

  /** The mean added up as often as there are values is their sum, and the variance is the mean square less the squared mean. */
  lemma VarianceByMoments(xs: seq<real>, mean: real, square: real)
    requires xs != [] && mean == Mean(xs) && square == mean * mean
    ensures Scale(|xs|, mean) == SumR(xs)
    ensures Scale(|xs|, Variance(xs)) == SumOfSquares(xs) - Scale(|xs|, square)
  {
    MeanScaled(xs);
    VarianceScaled(xs);
    DeviationsFromZero(xs);
    DeviationsFromMean(xs, mean, 0.0, square);
  }
}

/** The closing statistics of a latency test, over round-trip times in whole nanoseconds. */
module LatencyStats {
  import opened Postcard
  import opened Chunking
  import opened RealStats

  datatype Summary = Summary(avgMs: real, minMs: real, maxMs: real, varianceMs: real, pings: nat)

  function Ms(ns: nat): (ms: real)
    ensures ms * 1_000_000.0 == ns as real
  {
    ns as real / 1_000_000.0
  }

  function MinOf(s: seq<nat>): nat
    requires s != []
  {
    if |s| == 1 then s[0] else Min(s[0], MinOf(s[1..]))
  }

  /** Durations divide to whole nanoseconds. */
  function TruncatedMean(ns: seq<nat>): nat
    requires ns != []
  {
    Sum(ns) / |ns|
  }

  function AllMs(ns: seq<nat>): (xs: seq<real>)
    ensures |xs| == |ns| && forall i :: 0 <= i < |xs| ==> xs[i] == Ms(ns[i])
  {
    seq(|ns|, i requires 0 <= i < |ns| => Ms(ns[i]))
  }

  /** The variance is taken around the truncated mean. Without a sample the division by their number panics. */
  function Summarize(ns: seq<nat>): Option<Summary> {
    if ns == [] then None
    else
      var avg := Ms(TruncatedMean(ns));
      Some(Summary(avg, Ms(MinOf(ns)), Ms(MaxOf(ns)), SquaredDeviations(AllMs(ns), avg) / |ns| as real, |ns|))
  }

  lemma {:induction false} MinOfBounds(ns: seq<nat>)
    requires ns != []
    ensures MinOf(ns) in ns
    ensures forall i :: 0 <= i < |ns| ==> MinOf(ns) <= ns[i]
  {
    if |ns| == 1 {
    } else {
      MinOfBounds(ns[1..]);
      forall i | 0 <= i < |ns| ensures MinOf(ns) <= ns[i] {
        if i > 0 { assert ns[i] == ns[1..][i - 1]; }
      }
    }
  }

  lemma {:induction false} SumWithin(ns: seq<nat>, lo: nat, hi: nat)
    requires forall i :: 0 <= i < |ns| ==> lo <= ns[i] <= hi
    ensures lo * |ns| <= Sum(ns) <= hi * |ns|
  {
    if ns == [] {
    } else {
      SumWithin(ns[1..], lo, hi);
      OneMore(lo, |ns| - 1);
      OneMore(hi, |ns| - 1);
    }
  }

  lemma OneMore(a: nat, n: nat)
    ensures a * (n + 1) == a * n + a
  {
  }

  lemma QuotientBetween(lo: nat, hi: nat, total: nat, n: nat)
    requires n > 0 && lo * n <= total <= hi * n
    ensures lo <= total / n <= hi
    ensures n * (total / n) <= total < n * (total / n) + n
  {
    var q, r := total / n, total % n;
    assert total == n * q + r;
    MulGrows(n, lo - q);
    MulGrows(n, q - hi);
    assert n * (lo - q) == lo * n - n * q && n * (q - hi) == n * q - hi * n;
  }

  /** Truncation keeps the average between the minimum and the maximum, which are samples. */
  lemma AverageBetween(ns: seq<nat>)
    requires ns != []
    ensures MinOf(ns) <= TruncatedMean(ns) <= MaxOf(ns)
    ensures MinOf(ns) in ns && MaxOf(ns) in ns
    ensures var s := Summarize(ns).value; s.minMs <= s.avgMs <= s.maxMs
  {
    MinOfBounds(ns);
    MaxOfBounds(ns);
    SumWithin(ns, MinOf(ns), MaxOf(ns));
    QuotientBetween(MinOf(ns), MaxOf(ns), Sum(ns), |ns|);
  }

  lemma {:induction false} SumOfMs(ns: seq<nat>)
    ensures SumR(AllMs(ns)) == Ms(Sum(ns))
  {
    if ns == [] {
    } else {
      SumOfMs(ns[1..]);
      assert AllMs(ns)[1..] == AllMs(ns[1..]);
    }
  }

  lemma {:induction false} ScaledMs(n: nat, q: nat)
    ensures Scale(n, Ms(q)) == Ms(n * q)
  {
    if n == 0 {
    } else {
      ScaledMs(n - 1, q);
      assert n * q == q + (n - 1) * q;
    }
  }

  lemma MeanError(n: nat, total: nat, mean: real)
    requires n > 0 && Scale(n, mean) == Ms(total)
    ensures 0.0 <= mean - Ms(total / n) < Ms(1)
  {
    var q := total / n;
    assert total * n >= total by { MulGrows(total, n); }
    QuotientBetween(0, total, total, n);
    MeanBetween(n, total, q, n * q, mean);
  }

  lemma MeanBetween(n: nat, total: nat, q: nat, product: nat, mean: real)
    requires n > 0 && Scale(n, mean) == Ms(total)
    requires product == n * q && product <= total < product + n
    ensures 0.0 <= mean - Ms(q) < Ms(1)
  {
    assert product + n == n * (q + 1);
    ScaledMs(n, q);
    ScaledMs(n, q + 1);
    MsMonotone(product, total);
    MsMonotone(total, product + n);
    ScaleMonotone(n, mean, Ms(q));
    ScaleMonotone(n, mean, Ms(q + 1));
    assert Ms(q + 1) == Ms(q) + Ms(1);
  }

  lemma MsMonotone(a: nat, b: nat)
    ensures a < b <==> Ms(a) < Ms(b)
  {
  }

  lemma SmallSquare(x: real, e: real)
    requires 0.0 <= x < e
    ensures 0.0 <= x * x < e * e
  {
    ProductNonNegative(x, x);
    ProductNonNegative(e - x, x);
    ProductPositive(e - x, e, (e - x) * e);
    assert e * e == (e - x) * e + (e - x) * x + x * x;
  }

  lemma QuotientOfSum(n: nat, d: real, v: real, gap: real)
    requires n > 0 && v == d / n as real
    ensures (d + Scale(n, gap)) / n as real == v + gap
  {
    var w := (d + Scale(n, gap)) / n as real;
    ScaledQuotient(n, d, v);
    ScaledQuotient(n, d + Scale(n, gap), w);
    ScaleAdds(n, v, gap);
    ScaleMonotone(n, w, v + gap);
    ScaleMonotone(n, v + gap, w);
  }

  lemma ExcessOf(n: nat, d: real, v: real, error: real, gap: real, r: real)
    requires n > 0 && v == d / n as real && r == (d + Scale(n, gap)) / n as real
    requires 0.0 <= error < Ms(1) && gap == error * error
    ensures 0.0 <= r - v < Ms(1) * Ms(1)
  {
    QuotientOfSum(n, d, v, gap);
    SmallSquare(error, Ms(1));
  }

  lemma TruncationError(ns: seq<nat>, mean: real, avg: real)
    requires ns != [] && mean == Mean(AllMs(ns)) && avg == Ms(TruncatedMean(ns))
    ensures 0.0 <= mean - avg < Ms(1)
  {
    SumOfMs(ns);
    MeanScaled(AllMs(ns));
    MeanError(|ns|, Sum(ns), mean);
  }

  lemma ExcessAround(xs: seq<real>, mean: real, avg: real, error: real)
    requires xs != [] && mean == Mean(xs) && error == mean - avg && 0.0 <= error < Ms(1)
    ensures 0.0 <= SquaredDeviations(xs, avg) / |xs| as real - Variance(xs) < Ms(1) * Ms(1)
  {
    var gap := error * error;
    DeviationsFromMean(xs, mean, avg, gap);
    ExcessOf(|xs|, SquaredDeviations(xs, mean), Variance(xs), error, gap, SquaredDeviations(xs, avg) / |xs| as real);
  }

  /**
    The reported variance exceeds the true one by the square of what truncation took off the
    mean: never below it, and never by as much as the square of one nanosecond.
  */
  lemma VarianceExcess(ns: seq<nat>)
    requires ns != []
    ensures 0.0 <= Summarize(ns).value.varianceMs - Variance(AllMs(ns)) < Ms(1) * Ms(1)
  {
    var mean, avg := Mean(AllMs(ns)), Ms(TruncatedMean(ns));
    TruncationError(ns, mean, avg);
    ExcessAround(AllMs(ns), mean, avg, mean - avg);
  }

  /**
    What a summary says about the samples: its extremes are the least and the greatest of them,
    its average lies between and is less than a nanosecond below their mean, its variance is
    less than a squared nanosecond above theirs, and all of them are counted.
  */
  ghost predicate Describes(s: Summary, ns: seq<nat>)
    requires ns != []
  {
    && (forall i :: 0 <= i < |ns| ==> s.minMs <= Ms(ns[i]) <= s.maxMs)
    && (exists i :: 0 <= i < |ns| && Ms(ns[i]) == s.minMs)
    && (exists i :: 0 <= i < |ns| && Ms(ns[i]) == s.maxMs)
    && s.minMs <= s.avgMs <= s.maxMs
    && 0.0 <= Mean(AllMs(ns)) - s.avgMs < Ms(1)
    && 0.0 <= s.varianceMs - Variance(AllMs(ns)) < Ms(1) * Ms(1)
    && s.pings == |ns|
  }

  lemma ExtremesOfSummary(ns: seq<nat>, s: Summary)
    requires Summarize(ns) == Some(s)
    ensures forall i :: 0 <= i < |ns| ==> s.minMs <= Ms(ns[i]) <= s.maxMs
    ensures exists i :: 0 <= i < |ns| && Ms(ns[i]) == s.minMs
    ensures exists i :: 0 <= i < |ns| && Ms(ns[i]) == s.maxMs
  {
    MinOfBounds(ns);
    MaxOfBounds(ns);
    forall i | 0 <= i < |ns| ensures s.minMs <= Ms(ns[i]) <= s.maxMs {
      assert MinOf(ns) <= ns[i] <= MaxOf(ns);
      MsMonotone(ns[i], MinOf(ns));
      MsMonotone(MaxOf(ns), ns[i]);
    }
    var i :| 0 <= i < |ns| && ns[i] == MinOf(ns);
    var j :| 0 <= j < |ns| && ns[j] == MaxOf(ns);
    assert Ms(ns[i]) == s.minMs && Ms(ns[j]) == s.maxMs;
  }

  lemma SummaryDescribes(ns: seq<nat>, s: Summary)
    requires Summarize(ns) == Some(s)
    ensures ns != [] && Describes(s, ns)
  {
    ExtremesOfSummary(ns, s);
    AverageBetween(ns);
    TruncationError(ns, Mean(AllMs(ns)), s.avgMs);
    VarianceExcess(ns);
  }
}

/**
  What the client reports after a throughput test: totals, rates and the statistics of the
  streams. Durations are in nanoseconds and rates are real numbers; byte counts are unsigned
  64-bit integers whose additions wrap.
*/
module ThroughputReport {
  import opened Postcard
  import opened Chunking
  import opened RealStats
  import TT = ThroughputTest
  import TS = ThroughputStream

  const U64_VALUES := 0x1_0000_0000_0000_0000

  function WrapAdd(a: U64, b: U64): U64 { (a + b) % U64_VALUES }

  /** What one stream's task returns. */
  datatype Outcome = Outcome(sent: U64, received: U64, uploadNs: nat, downloadNs: nat)

  datatype StreamStats = StreamStats(streamId: nat, outcome: Outcome, throughputMbps: real)

  /** `cvSquared` is what the balance score is a function of; without it the score is 1. */
  datatype TestStats = TestStats(
    perStream: seq<StreamStats>,
    aggregateMbps: real,
    variance: real,
    cvSquared: Option<real>,
    minMbps: real,
    maxMbps: real)

  datatype Report = Report(
    uploadMbps: real, downloadMbps: real, uploadNs: nat, downloadNs: nat,
    sent: U64, received: U64, statistics: Option<TestStats>)

  /** Megabits per second; no rate is reported for no time. */
  function Mbps(bytes: nat, ns: nat): real {
    if ns == 0 then 0.0 else (bytes as real * 8.0) / (ns as real / 1_000_000_000.0) / 1_000_000.0
  }

  function StreamMbps(o: Outcome): real {
    Mbps(WrapAdd(o.sent, o.received), o.uploadNs + o.downloadNs)
  }

  function Rates(streams: seq<StreamStats>): (xs: seq<real>)
    ensures |xs| == |streams| && forall i :: 0 <= i < |xs| ==> xs[i] == streams[i].throughputMbps
  {
    seq(|streams|, i requires 0 <= i < |streams| => streams[i].throughputMbps)
  }

  /** The square of the standard deviation over the mean. */
  function SquaredCv(variance: real, mean: real): real
    requires mean > 0.0
  {
    ProductPositive(mean, mean, mean * mean);
    variance / (mean * mean)
  }

  function FromStreams(streams: seq<StreamStats>): TestStats {
    if streams == [] then TestStats([], 0.0, 0.0, None, 0.0, 0.0)
    else
      var xs := Rates(streams);
      var mean := Mean(xs);
      var variance := if |streams| > 1 then Variance(xs) else 0.0;
      var cvSquared := if mean > 0.0 && |streams| > 1 then Some(SquaredCv(variance, mean)) else None;
      TestStats(streams, SumR(xs), variance, cvSquared, MinR(xs), MaxR(xs))
  }

  // The statistics

  lemma VarianceOfStreams(streams: seq<StreamStats>)
    requires streams != []
    ensures FromStreams(streams).variance == Variance(Rates(streams))
  {
    if |streams| == 1 { VarianceZeroIff(Rates(streams)); }
  }

  /**
    For any non-empty list of streams: the minimum and maximum are attained bounds with the
    mean between them, and the variance is within the spread and a quarter of the squared range.
  */
  lemma StatisticsAreConsistent(streams: seq<StreamStats>)
    requires streams != []
    ensures var st, xs := FromStreams(streams), Rates(streams);
            && st.minMbps in xs && st.maxMbps in xs && Within(xs, st.minMbps, st.maxMbps)
            && st.aggregateMbps == SumR(xs) && st.perStream == streams
            && st.minMbps <= Mean(xs) <= st.maxMbps
            && 0.0 <= st.variance <= (st.maxMbps - Mean(xs)) * (Mean(xs) - st.minMbps)
            && st.variance <= (st.maxMbps - st.minMbps) * (st.maxMbps - st.minMbps) / 4.0
  {
    VarianceOfStreams(streams);
    RatesAreConsistent(Rates(streams), MinR(Rates(streams)), MaxR(Rates(streams)));
  }

  lemma RatesAreConsistent(xs: seq<real>, lo: real, hi: real)
    requires xs != [] && lo == MinR(xs) && hi == MaxR(xs)
    ensures lo in xs && hi in xs && Within(xs, lo, hi) && lo <= Mean(xs) <= hi
    ensures 0.0 <= Variance(xs) <= (hi - Mean(xs)) * (Mean(xs) - lo)
    ensures Variance(xs) <= (hi - lo) * (hi - lo) / 4.0
  {
    MinMaxAreBounds(xs);
    MeanWithin(xs, lo, hi);
    VarianceZeroIff(xs);
    VarianceWithinSpread(xs, lo, hi);
    VarianceWithinRange(xs, lo, hi);
  }

  lemma QuotientBound(v: real, q: real, n: real, r: real)
    requires q > 0.0 && 0.0 <= v <= n * q && r == v / q
    ensures 0.0 <= r <= n
    ensures r == 0.0 <==> v == 0.0
  {
  }

  lemma CvOfStreams(streams: seq<StreamStats>, mean: real, cv: real)
    requires FromStreams(streams).cvSquared == Some(cv)
    requires streams != [] && mean == Mean(Rates(streams))
    ensures mean > 0.0 && cv == SquaredCv(Variance(Rates(streams)), mean)
  {
    VarianceOfStreams(streams);
  }

  /**
    There is a squared coefficient of variation exactly for several streams with a positive
    mean, and times the squared mean it is the variance. Otherwise the balance score is 1.
  */
  lemma CvPresentIff(streams: seq<StreamStats>, mean: real, square: real)
    requires streams != [] && mean == Mean(Rates(streams)) && square == mean * mean
    ensures FromStreams(streams).cvSquared.Some? <==> |streams| > 1 && mean > 0.0
    ensures FromStreams(streams).cvSquared.Some? ==>
              FromStreams(streams).cvSquared.value * square == Variance(Rates(streams))
  {
    if FromStreams(streams).cvSquared.Some? {
      CvOfStreams(streams, mean, FromStreams(streams).cvSquared.value);
      ProductPositive(mean, mean, square);
      QuotientTimes(Variance(Rates(streams)), square, FromStreams(streams).cvSquared.value);
    }
  }

  lemma QuotientTimes(v: real, q: real, r: real)
    requires q > 0.0 && r == v / q
    ensures r * q == v
  {
  }

  /**
    The squared coefficient of variation behind the balance score lies between zero and the
    number of streams less one, and is zero exactly when all streams were equally fast.
  */
  lemma BalanceIsBounded(streams: seq<StreamStats>)
    requires NonNegative(Rates(streams)) && FromStreams(streams).cvSquared.Some?
    ensures var cv, xs := FromStreams(streams).cvSquared.value, Rates(streams);
            && 0.0 <= cv <= |streams| as real - 1.0
            && (cv == 0.0 <==> forall i, j :: 0 <= i < |xs| && 0 <= j < |xs| ==> xs[i] == xs[j])
  {
    var xs := Rates(streams);
    var mean, v, cv := Mean(xs), Variance(xs), FromStreams(streams).cvSquared.value;
    CvOfStreams(streams, mean, cv);
    VarianceZeroIff(xs);
    VarianceWithinBalance(xs);
    ProductPositive(mean, mean, mean * mean);
    QuotientBound(v, mean * mean, |xs| as real - 1.0, cv);
  }

  // Joining the streams

  function Stats(outcomes: seq<Outcome>): (s: seq<StreamStats>)
    ensures |s| == |outcomes|
  {
    seq(|outcomes|, i requires 0 <= i < |outcomes| => StreamStats(i, outcomes[i], StreamMbps(outcomes[i])))
  }

  function WrapSum(s: seq<U64>): U64 {
    if s == [] then 0 else WrapAdd(WrapSum(s[..|s| - 1]), s[|s| - 1])
  }

  function Sents(os: seq<Outcome>): (s: seq<U64>)
    ensures |s| == |os| && forall i :: 0 <= i < |s| ==> s[i] == os[i].sent
  {
    seq(|os|, i requires 0 <= i < |os| => os[i].sent)
  }

  function Receiveds(os: seq<Outcome>): (s: seq<U64>)
    ensures |s| == |os| && forall i :: 0 <= i < |s| ==> s[i] == os[i].received
  {
    seq(|os|, i requires 0 <= i < |os| => os[i].received)
  }

  function Uploads(os: seq<Outcome>): (s: seq<nat>)
    ensures |s| == |os| && forall i :: 0 <= i < |s| ==> s[i] == os[i].uploadNs
  {
    seq(|os|, i requires 0 <= i < |os| => os[i].uploadNs)
  }

  function Downloads(os: seq<Outcome>): (s: seq<nat>)
    ensures |s| == |os| && forall i :: 0 <= i < |s| ==> s[i] == os[i].downloadNs
  {
    seq(|os|, i requires 0 <= i < |os| => os[i].downloadNs)
  }

  function ReportOf(os: seq<Outcome>): Report {
    var up, down := MaxOf(Uploads(os)), MaxOf(Downloads(os));
    var sent, received := WrapSum(Sents(os)), WrapSum(Receiveds(os));
    Report(Mbps(sent, up), Mbps(received, down), up, down, sent, received,
           if os == [] then None else Some(FromStreams(Stats(os))))
  }

  function Values(rs: seq<Option<Outcome>>): (os: seq<Outcome>)
    requires forall i :: 0 <= i < |rs| ==> rs[i].Some?
    ensures |os| == |rs| && forall i :: 0 <= i < |rs| ==> os[i] == rs[i].value
  {
    seq(|rs|, i requires 0 <= i < |rs| => rs[i].value)
  }

  lemma Prefixes(os: seq<Outcome>, k: nat)
    requires k < |os|
    ensures Sents(os[..k + 1])[..k] == Sents(os[..k]) && Receiveds(os[..k + 1])[..k] == Receiveds(os[..k])
    ensures Uploads(os[..k + 1])[..k] == Uploads(os[..k]) && Downloads(os[..k + 1])[..k] == Downloads(os[..k])
    ensures Stats(os[..k + 1]) == Stats(os[..k]) + [StreamStats(k, os[k], StreamMbps(os[k]))]
  {
  }

  // What a report says

  /** So many megabits in each second of the time; no rate is reported for no time. */
  ghost predicate IsRate(mbps: real, bytes: nat, ns: nat) {
    if ns == 0 then mbps == 0.0 else mbps * ns as real == 8000.0 * bytes as real
  }

  lemma MbpsIsRate(mbps: real, bytes: nat, ns: nat)
    requires mbps == Mbps(bytes, ns)
    ensures IsRate(mbps, bytes, ns)
  {
    if ns > 0 { RateTimesTime(bytes, ns, mbps); }
  }

  /**
    What a report says about the streams: totals modulo 2^64, each direction's longest time,
    the rate of each total over its own longest time, and for each stream, in order, its own
    results and the rate of its bytes in both directions over the sum of its times.
  */
  ghost predicate Describes(r: Report, os: seq<Outcome>) {
    && r.sent == Sum(Sents(os)) % 0x1_0000_0000_0000_0000
    && r.received == Sum(Receiveds(os)) % 0x1_0000_0000_0000_0000
    && (forall i :: 0 <= i < |os| ==> os[i].uploadNs <= r.uploadNs && os[i].downloadNs <= r.downloadNs)
    && (r.uploadNs == 0 || exists i :: 0 <= i < |os| && os[i].uploadNs == r.uploadNs)
    && (r.downloadNs == 0 || exists i :: 0 <= i < |os| && os[i].downloadNs == r.downloadNs)
    && IsRate(r.uploadMbps, r.sent, r.uploadNs)
    && IsRate(r.downloadMbps, r.received, r.downloadNs)
    && (r.statistics.None? <==> os == [])
    && (r.statistics.Some? ==> PerStream(r.statistics.value.perStream, os))
  }

  ghost predicate PerStream(streams: seq<StreamStats>, os: seq<Outcome>) {
    && |streams| == |os|
    && forall i :: 0 <= i < |os| ==>
         && streams[i].streamId == i && streams[i].outcome == os[i]
         && IsRate(streams[i].throughputMbps, (os[i].sent + os[i].received) % 0x1_0000_0000_0000_0000,
                   os[i].uploadNs + os[i].downloadNs)
  }

  lemma StatsPerStream(os: seq<Outcome>)
    ensures PerStream(Stats(os), os)
  {
    forall i | 0 <= i < |os|
      ensures IsRate(StreamMbps(os[i]), (os[i].sent + os[i].received) % 0x1_0000_0000_0000_0000,
                     os[i].uploadNs + os[i].downloadNs)
    {
      MbpsIsRate(StreamMbps(os[i]), WrapAdd(os[i].sent, os[i].received), os[i].uploadNs + os[i].downloadNs);
    }
  }

  lemma Longest(s: seq<nat>, m: nat)
    requires m == MaxOf(s)
    ensures forall i :: 0 <= i < |s| ==> s[i] <= m
    ensures m == 0 || exists i :: 0 <= i < |s| && s[i] == m
  {
    MaxOfBounds(s);
  }

  lemma ReportDescribes(os: seq<Outcome>)
    ensures Describes(ReportOf(os), os)
  {
    var r := ReportOf(os);
    WrapSumIsSum(Sents(os));
    WrapSumIsSum(Receiveds(os));
    Longest(Uploads(os), r.uploadNs);
    Longest(Downloads(os), r.downloadNs);
    MbpsIsRate(r.uploadMbps, r.sent, r.uploadNs);
    MbpsIsRate(r.downloadMbps, r.received, r.downloadNs);
    StatsPerStream(os);
  }

  /** As long as no total wraps, each reported rate times its time is the true number of bits. */
  lemma ReportedRatesAreTrue(os: seq<Outcome>)
    requires Sum(Sents(os)) < 0x1_0000_0000_0000_0000 && Sum(Receiveds(os)) < 0x1_0000_0000_0000_0000
    ensures IsRate(ReportOf(os).uploadMbps, Sum(Sents(os)), ReportOf(os).uploadNs)
    ensures IsRate(ReportOf(os).downloadMbps, Sum(Receiveds(os)), ReportOf(os).downloadNs)
  {
    ReportDescribes(os);
    WrapSumExact(Sents(os));
    WrapSumExact(Receiveds(os));
  }

  /** Joins the stream tasks in order; one failed stream fails the test. */
  method JoinStreams(results: seq<Option<Outcome>>) returns (r: Option<Report>)
    ensures r.Some? <==> forall i :: 0 <= i < |results| ==> results[i].Some?
    ensures r.Some? ==> r.value == ReportOf(Values(results)) && Describes(r.value, Values(results))
  {
    var totalSent, totalReceived := 0, 0;
    var maxUpload, maxDownload := 0, 0;
    var stats: seq<StreamStats> := [];
    for idx := 0 to |results|
      invariant forall i :: 0 <= i < idx ==> results[i].Some?
      invariant var os := Values(results[..idx]);
                && totalSent == WrapSum(Sents(os)) && totalReceived == WrapSum(Receiveds(os))
                && maxUpload == MaxOf(Uploads(os)) && maxDownload == MaxOf(Downloads(os))
                && stats == Stats(os)
    {
      if results[idx].None? {
        return None;
      }
      var o := results[idx].value;
      ghost var os := Values(results[..idx + 1]);
      Prefixes(os, idx);
      assert os[..idx] == Values(results[..idx]) && os[..idx + 1] == os;
      totalSent := WrapAdd(totalSent, o.sent);
      totalReceived := WrapAdd(totalReceived, o.received);
      maxUpload := Max(maxUpload, o.uploadNs);
      maxDownload := Max(maxDownload, o.downloadNs);
      stats := stats + [StreamStats(idx, o, StreamMbps(o))];
    }
    assert results[..|results|] == results;
    var statistics := if stats != [] then Some(FromStreams(stats)) else None;
    ReportDescribes(Values(results));
    r := Some(Report(Mbps(totalSent, maxUpload), Mbps(totalReceived, maxDownload),
                     maxUpload, maxDownload, totalSent, totalReceived, statistics));
  }

  lemma RatesAreNonNegative(os: seq<Outcome>)
    ensures NonNegative(Rates(Stats(os)))
  {
    forall i | 0 <= i < |os| ensures StreamMbps(os[i]) >= 0.0 {
      MbpsIsNonNegative(WrapAdd(os[i].sent, os[i].received), os[i].uploadNs + os[i].downloadNs);
    }
  }

  lemma MbpsIsNonNegative(bytes: nat, ns: nat)
    ensures Mbps(bytes, ns) >= 0.0
  {
  }

  /** So in every report, whatever its streams did. */
  lemma ReportedBalanceIsBounded(os: seq<Outcome>)
    requires os != [] && ReportOf(os).statistics.value.cvSquared.Some?
    ensures var cv, xs := ReportOf(os).statistics.value.cvSquared.value, Rates(Stats(os));
            && 0.0 <= cv <= |os| as real - 1.0
            && (cv == 0.0 <==> forall i, j :: 0 <= i < |xs| && 0 <= j < |xs| ==> xs[i] == xs[j])
  {
    RatesAreNonNegative(os);
    BalanceIsBounded(Stats(os));
  }

  // What the totals mean

  lemma WrapTwice(a: nat, b: U64)
    ensures WrapAdd(a % U64_VALUES, b) == (a + b) % U64_VALUES
  {
  }

  lemma {:induction false} WrapSumIsSum(s: seq<U64>)
    ensures WrapSum(s) == Sum(s) % U64_VALUES
  {
    if s == [] {
    } else {
      var front, last := s[..|s| - 1], s[|s| - 1];
      WrapSumIsSum(front);
      assert Sum(s) == Sum(front) + last by {
        SumConcat(front, [last]);
        assert s == front + [last];
        assert Sum([last]) == last;
      }
      WrapTwice(Sum(front), last);
    }
  }

  /** What the client's stream tasks return: the size they sent and what they received. */
  ghost predicate OutcomesOf(t: TT.Test, ss: TT.States, os: seq<Outcome>)
    requires t.streams > 0
  {
    && |os| == |ss| == t.streams
    && forall i :: 0 <= i < |os| ==> os[i].sent == t.Stream(i).size && os[i].received == |TS.Received(ss[i])|
  }

  lemma TotalsOfOutcomes(t: TT.Test, ss: TT.States, os: seq<Outcome>)
    requires t.streams > 0 && OutcomesOf(t, ss, os) && Sum(TT.ClientBytes(ss)) == t.dataSize
    ensures ReportOf(os).sent == t.dataSize && ReportOf(os).received == t.dataSize
  {
    SharesPartition(t.dataSize, t.streams);
    assert Sents(os) == Shares(t.dataSize, t.streams);
    assert Receiveds(os) == TT.ClientBytes(ss);
    WrapSumExact(Sents(os));
    WrapSumExact(Receiveds(os));
  }

  /**
    In whatever state of whatever run the client's own streams are done and it makes its report,
    both totals are the requested size. The servers may still be at work then.
  */
  lemma TotalsAreRequestedSize(t: TT.Test, run: seq<TT.World>, events: seq<TT.Event>, k: nat, os: seq<Outcome>)
    requires t.streams > 0 && TT.IsRun(t, run, events) && k <= |events|
    requires TT.ClientsDone(run[k].streams) && OutcomesOf(t, run[k].streams, os)
    ensures ReportOf(os).sent == t.dataSize && ReportOf(os).received == t.dataSize
  {
    TT.ClientsDoneTotals(t, run, events, k);
    TotalsOfOutcomes(t, run[k].streams, os);
  }

  // What the rates mean

  lemma RateTimesTime(bytes: nat, ns: nat, rate: real)
    requires ns > 0 && rate == Mbps(bytes, ns)
    ensures rate * ns as real == 8000.0 * bytes as real
    ensures rate >= 0.0
  {
  }

  /** A stream's reported rate is its true rate exactly when it took no time or its two byte counts add up without wrapping. */
  lemma StreamRateIsTrueIff(o: Outcome)
    ensures IsRate(StreamMbps(o), o.sent + o.received, o.uploadNs + o.downloadNs)
       <==> o.uploadNs + o.downloadNs == 0 || o.sent + o.received < 0x1_0000_0000_0000_0000
  {
    MbpsIsRate(StreamMbps(o), WrapAdd(o.sent, o.received), o.uploadNs + o.downloadNs);
  }

  /** Every stream that moved bytes took time, and no count wraps. */
  ghost predicate Plausible(os: seq<Outcome>) {
    && Sum(Sents(os)) < U64_VALUES && Sum(Receiveds(os)) < U64_VALUES
    && forall i :: 0 <= i < |os| ==>
         && os[i].sent + os[i].received < U64_VALUES
         && (os[i].uploadNs + os[i].downloadNs == 0 ==> os[i].sent == os[i].received == 0)
  }

  lemma StreamCovers(o: Outcome, u: nat, d: nat, rate: real)
    requires o.sent + o.received < U64_VALUES && o.uploadNs <= u && o.downloadNs <= d && rate == StreamMbps(o)
    requires o.uploadNs + o.downloadNs == 0 ==> o.sent == o.received == 0
    ensures rate * (u + d) as real >= 8000.0 * (o.sent + o.received) as real
    ensures rate >= 0.0
  {
    var ns := o.uploadNs + o.downloadNs;
    if ns > 0 {
      RateTimesTime(o.sent + o.received, ns, rate);
      ProductNonNegative(rate, (u + d - ns) as real);
      Distribute(rate, ns as real, (u + d - ns) as real);
    }
  }

  /** The sum of `k` times each rate. */
  function TimedSum(xs: seq<real>, k: real): real {
    if xs == [] then 0.0 else xs[0] * k + TimedSum(xs[1..], k)
  }

  lemma {:induction false} TimedSumIs(xs: seq<real>, k: real)
    ensures TimedSum(xs, k) == SumR(xs) * k
  {
    if xs == [] {
    } else {
      TimedSumIs(xs[1..], k);
      Distribute(k, xs[0], SumR(xs[1..]));
    }
  }

  /** At this rate, the time `k` is enough for the bytes. */
  ghost predicate Covers(rate: real, k: real, bytes: nat) {
    rate >= 0.0 && rate * k >= 8000.0 * bytes as real
  }

  lemma {:induction false} RatesCover(xs: seq<real>, bytes: seq<nat>, k: real)
    requires |xs| == |bytes|
    requires forall i :: 0 <= i < |xs| ==> Covers(xs[i], k, bytes[i])
    ensures TimedSum(xs, k) >= 8000.0 * Sum(bytes) as real
    ensures SumR(xs) >= 0.0
  {
    if xs == [] {
    } else {
      RatesCover(xs[1..], bytes[1..], k);
    }
  }

  lemma SumCovers(xs: seq<real>, bytes: seq<nat>, k: real)
    requires |xs| == |bytes|
    requires forall i :: 0 <= i < |xs| ==> Covers(xs[i], k, bytes[i])
    ensures Covers(SumR(xs), k, Sum(bytes))
  {
    RatesCover(xs, bytes, k);
    TimedSumIs(xs, k);
  }

  function Moved(os: seq<Outcome>): (s: seq<nat>) ensures |s| == |os| {
    seq(|os|, i requires 0 <= i < |os| => os[i].sent + os[i].received)
  }

  lemma {:induction false} MovedIsBoth(os: seq<Outcome>)
    ensures Sum(Moved(os)) == Sum(Sents(os)) + Sum(Receiveds(os))
  {
    if os == [] {
    } else {
      MovedIsBoth(os[1..]);
      assert Moved(os)[1..] == Moved(os[1..]) && Sents(os)[1..] == Sents(os[1..]) && Receiveds(os)[1..] == Receiveds(os[1..]);
    }
  }

  lemma OrderOfFactors(k: real, a: real, b: real)
    requires k > 0.0 && a * k <= b * k
    ensures a <= b
  {
    assert k * (b - a) == b * k - a * k;
  }

  lemma Mediant(m: real, u: real, d: real, x: real, sent: real, received: real)
    requires u > 0.0 && d > 0.0 && m * u <= sent && m * d <= received && sent + received <= x * (u + d)
    ensures m <= x
  {
    Distribute(m, u, d);
    OrderOfFactors(u + d, m, x);
  }

  lemma SmallerRate(up: real, down: real, u: real, d: real, x: real, sent: real, received: real)
    requires u > 0.0 && d > 0.0 && up * u == sent && down * d == received && sent + received <= x * (u + d)
    ensures up <= x || down <= x
  {
    if up <= down {
      assert up * d <= down * d by { ProductNonNegative(down - up, d); }
      Mediant(up, u, d, x, sent, received);
    } else {
      assert down * u <= up * u by { ProductNonNegative(up - down, u); }
      Mediant(down, u, d, x, sent, received);
    }
  }

  lemma RateCovers(os: seq<Outcome>, i: nat, u: nat, d: nat, rate: real)
    requires Plausible(os) && i < |os| && rate == StreamMbps(os[i])
    requires u == MaxOf(Uploads(os)) && d == MaxOf(Downloads(os))
    ensures Covers(rate, (u + d) as real, Moved(os)[i])
  {
    assert os[i].uploadNs <= u by { MaxOfBounds(Uploads(os)); assert Uploads(os)[i] <= u; }
    assert os[i].downloadNs <= d by { MaxOfBounds(Downloads(os)); assert Downloads(os)[i] <= d; }
    StreamCovers(os[i], u, d, rate);
  }

  lemma AggregateTimesTime(os: seq<Outcome>, xs: seq<real>, k: real)
    requires |xs| == |os|
    requires forall i :: 0 <= i < |xs| ==> Covers(xs[i], k, Moved(os)[i])
    ensures Covers(SumR(xs), k, Sum(Sents(os)) + Sum(Receiveds(os)))
  {
    SumCovers(xs, Moved(os), k);
    MovedIsBoth(os);
  }

  lemma WrapSumExact(s: seq<U64>)
    requires Sum(s) < U64_VALUES
    ensures WrapSum(s) == Sum(s)
  {
    WrapSumIsSum(s);
    SmallRemainder(Sum(s));
  }

  lemma SmallRemainder(n: nat)
    requires n < U64_VALUES
    ensures n % U64_VALUES == n
  {
  }

  lemma CombineRates(sent: nat, received: nat, u: nat, d: nat, up: real, down: real, x: real)
    requires up == Mbps(sent, u) && down == Mbps(received, d)
    requires Covers(x, (u + d) as real, sent + received)
    ensures up <= x || down <= x
  {
    if u > 0 && d > 0 {
      RateTimesTime(sent, u, up);
      RateTimesTime(received, d, down);
      assert (u + d) as real == u as real + d as real;
      SmallerRate(up, down, u as real, d as real, x, 8000.0 * sent as real, 8000.0 * received as real);
    }
  }

  lemma AllRatesCover(os: seq<Outcome>, u: nat, d: nat, xs: seq<real>)
    requires Plausible(os) && u == MaxOf(Uploads(os)) && d == MaxOf(Downloads(os))
    requires |xs| == |os| && forall i :: 0 <= i < |xs| ==> xs[i] == StreamMbps(os[i])
    ensures forall i :: 0 <= i < |xs| ==> Covers(xs[i], (u + d) as real, Moved(os)[i])
  {
    forall i | 0 <= i < |xs| ensures Covers(xs[i], (u + d) as real, Moved(os)[i]) {
      RateCovers(os, i, u, d, xs[i]);
    }
  }

  lemma RatesOfTotals(os: seq<Outcome>, u: nat, d: nat, xs: seq<real>, sent: nat, received: nat, up: real, down: real)
    requires |xs| == |os| && forall i :: 0 <= i < |xs| ==> Covers(xs[i], (u + d) as real, Moved(os)[i])
    requires sent == Sum(Sents(os)) && received == Sum(Receiveds(os))
    requires up == Mbps(sent, u) && down == Mbps(received, d)
    ensures up <= SumR(xs) || down <= SumR(xs)
  {
    AggregateTimesTime(os, xs, (u + d) as real);
    CombineRates(sent, received, u, d, up, down, SumR(xs));
  }

  /** The aggregate over the streams is never below the smaller of the two reported rates. */
  lemma AggregateCoversReportedRates(os: seq<Outcome>)
    requires os != [] && Plausible(os)
    ensures var r := ReportOf(os);
            r.uploadMbps <= r.statistics.value.aggregateMbps || r.downloadMbps <= r.statistics.value.aggregateMbps
  {
    var u, d := MaxOf(Uploads(os)), MaxOf(Downloads(os));
    var sent, received := WrapSum(Sents(os)), WrapSum(Receiveds(os));
    WrapSumExact(Sents(os));
    WrapSumExact(Receiveds(os));
    AllRatesCover(os, u, d, Rates(Stats(os)));
    RatesOfTotals(os, u, d, Rates(Stats(os)), sent, received, Mbps(sent, u), Mbps(received, d));
  }

  // One direction at a time

  /** Every stream that moved bytes in this direction took time for it. */
  predicate Timed(bytes: seq<nat>, ns: seq<nat>)
    requires |bytes| == |ns|
  {
    forall i :: 0 <= i < |bytes| ==> ns[i] == 0 ==> bytes[i] == 0
  }

  /** The rate of each stream in one direction. */
  function DirectionRates(bytes: seq<nat>, ns: seq<nat>): (xs: seq<real>)
    requires |bytes| == |ns|
    ensures |xs| == |bytes| && forall i :: 0 <= i < |xs| ==> xs[i] == Mbps(bytes[i], ns[i])
  {
    seq(|bytes|, i requires 0 <= i < |bytes| => Mbps(bytes[i], ns[i]))
  }

  lemma DirectionCovers(bytes: nat, ns: nat, longest: nat, rate: real)
    requires ns <= longest && rate == Mbps(bytes, ns) && (ns == 0 ==> bytes == 0)
    ensures Covers(rate, longest as real, bytes)
  {
    if ns > 0 {
      RateTimesTime(bytes, ns, rate);
      ProductNonNegative(rate, (longest - ns) as real);
      Distribute(rate, ns as real, (longest - ns) as real);
    }
  }

  lemma RateIsCovered(bytes: nat, ns: nat, rate: real, x: real)
    requires rate == Mbps(bytes, ns) && Covers(x, ns as real, bytes)
    ensures rate <= x
  {
    if ns > 0 {
      RateTimesTime(bytes, ns, rate);
      OrderOfFactors(ns as real, rate, x);
    }
  }

  lemma EachDirectionCovers(bytes: seq<nat>, ns: seq<nat>, longest: nat, xs: seq<real>)
    requires |bytes| == |ns| && Timed(bytes, ns) && longest == MaxOf(ns) && xs == DirectionRates(bytes, ns)
    ensures forall i :: 0 <= i < |xs| ==> Covers(xs[i], longest as real, bytes[i])
  {
    MaxOfBounds(ns);
    forall i | 0 <= i < |xs| ensures Covers(xs[i], longest as real, bytes[i]) {
      DirectionCovers(bytes[i], ns[i], longest, xs[i]);
    }
  }

  lemma DirectionsCover(bytes: seq<nat>, ns: seq<nat>, longest: nat, xs: seq<real>)
    requires |bytes| == |ns| && Timed(bytes, ns) && longest == MaxOf(ns) && xs == DirectionRates(bytes, ns)
    ensures Covers(SumR(xs), longest as real, Sum(bytes))
  {
    EachDirectionCovers(bytes, ns, longest, xs);
    SumCovers(xs, bytes, longest as real);
  }

  /**
    The reported upload and download rates divide by the longest time of any stream, so they
    are never above what the streams together reached in that direction.
  */
  lemma ReportedRatesWithinStreamRates(os: seq<Outcome>)
    requires Sum(Sents(os)) < U64_VALUES && Sum(Receiveds(os)) < U64_VALUES
    requires Timed(Sents(os), Uploads(os)) && Timed(Receiveds(os), Downloads(os))
    ensures ReportOf(os).uploadMbps <= SumR(DirectionRates(Sents(os), Uploads(os)))
    ensures ReportOf(os).downloadMbps <= SumR(DirectionRates(Receiveds(os), Downloads(os)))
  {
    WrapSumExact(Sents(os));
    WrapSumExact(Receiveds(os));
    var ups, downs := DirectionRates(Sents(os), Uploads(os)), DirectionRates(Receiveds(os), Downloads(os));
    DirectionsCover(Sents(os), Uploads(os), MaxOf(Uploads(os)), ups);
    DirectionsCover(Receiveds(os), Downloads(os), MaxOf(Downloads(os)), downs);
    RateIsCovered(Sum(Sents(os)), MaxOf(Uploads(os)), ReportOf(os).uploadMbps, SumR(ups));
    RateIsCovered(Sum(Receiveds(os)), MaxOf(Downloads(os)), ReportOf(os).downloadMbps, SumR(downs));
  }
}

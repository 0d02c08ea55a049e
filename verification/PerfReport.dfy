/** Nearest-rank percentiles and the load-test report built on them. */
module PerfReport {
  import opened Numbers
  import opened Sorting

  datatype Request = Request(latency: real, ok: bool)

  datatype Report = Report(
    total: nat,
    success: nat,
    throughput: real,
    errorRate: real,
    average: real,
    p95: real,
    p99: real)

  function AtMost(): (real, real) -> bool { (x: real, y: real) => x <= y }

  function Ordered(values: seq<real>): seq<real> { Sort(values, AtMost()) }

  /** `round((n - 1) * p)`, half to even, clamped into the list. */
  function RankIndex(n: nat, p: real): (i: nat)
    requires n > 0
    ensures i < n
  {
    var rounded := RoundHalfEven((n - 1) as real * p);
    if rounded < 0 then 0 else if rounded > n - 1 then n - 1 else rounded
  }

  function Percentile(values: seq<real>, p: real): real {
    if values == [] then 0.0 else Ordered(values)[RankIndex(|values|, p)]
  }

  function Latencies(requests: seq<Request>): (l: seq<real>)
    ensures |l| == |requests|
  {
    seq(|requests|, i requires 0 <= i < |requests| => requests[i].latency)
  }

  function Successes(requests: seq<Request>): (n: nat)
    ensures n <= |requests|
  {
    if requests == [] then 0 else Successes(requests[1..]) + (if requests[0].ok then 1 else 0)
  }

  function Total(values: seq<real>): real {
    if values == [] then 0.0 else values[0] + Total(values[1..])
  }

  /** `round(x, 4)`. */
  function Round4(x: real): real { RoundHalfEven(x * 10000.0) as real / 10000.0 }

  /** A missing or zero duration counts as one second. */
  function Summary(total: nat, success: nat, sum: real, p95: real, p99: real, durationField: real): Report {
    var duration := if durationField == 0.0 then 1.0 else durationField;
    Report(total, success,
      if duration > 0.0 then Round2(success as real / duration) else 0.0,
      if total > 0 then Round4((total - success) as real / total as real * 100.0) else 0.0,
      if total > 0 then Round2(sum / total as real) else 0.0,
      Round2(p95),
      Round2(p99))
  }

  function ParseReport(requests: seq<Request>, durationField: real): Report {
    var latencies := Latencies(requests);
    Summary(|requests|, Successes(requests), Total(latencies), Percentile(latencies, 0.95), Percentile(latencies, 0.99),
      durationField)
  }

  // ----- counting samples

  function CountBelow(values: seq<real>, bound: real): nat {
    if values == [] then 0 else CountBelow(values[1..], bound) + (if values[0] <= bound then 1 else 0)
  }

  function CountAbove(values: seq<real>, bound: real): nat {
    if values == [] then 0 else CountAbove(values[1..], bound) + (if values[0] >= bound then 1 else 0)
  }

  lemma {:induction false} CountsWithout(values: seq<real>, j: nat, bound: real)
    requires j < |values|
    ensures CountBelow(values, bound)
      == CountBelow(values[..j] + values[j + 1..], bound) + (if values[j] <= bound then 1 else 0)
    ensures CountAbove(values, bound)
      == CountAbove(values[..j] + values[j + 1..], bound) + (if values[j] >= bound then 1 else 0)
    ensures Total(values) == Total(values[..j] + values[j + 1..]) + values[j]
  {
    var rest := values[..j] + values[j + 1..];
    if j == 0 {
      assert rest == values[1..];
    } else {
      CountsWithout(values[1..], j - 1, bound);
      assert rest[1..] == values[1..][..j - 1] + values[1..][j..];
    }
  }

  lemma {:induction false} CountsPermute(s: seq<real>, t: seq<real>, bound: real)
    requires multiset(s) == multiset(t)
    ensures CountBelow(s, bound) == CountBelow(t, bound) && CountAbove(s, bound) == CountAbove(t, bound)
    ensures Total(s) == Total(t)
  {
    assert |s| == |multiset(s)| == |multiset(t)| == |t|;
    if s != [] {
      assert s[0] in multiset(t);
      var j :| 0 <= j < |t| && t[j] == s[0];
      MultisetWithout(s, 0);
      MultisetWithout(t, j);
      CountsPermute(s[1..], t[..j] + t[j + 1..], bound);
      CountsWithout(t, j, bound);
    }
  }

  lemma {:induction false} CountsInOrder(s: seq<real>, k: nat, bound: real)
    requires k <= |s|
    ensures (forall i :: 0 <= i < k ==> s[i] <= bound) ==> CountBelow(s, bound) >= k
    ensures (forall i :: k <= i < |s| ==> s[i] >= bound) ==> CountAbove(s, bound) >= |s| - k
  {
    if s != [] {
      var k' := if k == 0 then 0 else k - 1;
      CountsInOrder(s[1..], k', bound);
      assert forall i :: 0 <= i < |s| - 1 ==> s[1..][i] == s[i + 1];
      if k == 0 && forall i :: k <= i < |s| ==> s[i] >= bound {
        assert s[0] >= bound;
      }
    }
  }

  lemma OrderIsTotal()
    ensures Preorder(AtMost())
    ensures Antisymmetric(AtMost())
  {
  }

  /** The percentile is a sample with at least index+1 samples at or below it and n-index at or above it. */
  lemma PercentileIsNearestRank(values: seq<real>, p: real)
    requires values != []
    ensures var r, i := Percentile(values, p), RankIndex(|values|, p);
      r in values && CountBelow(values, r) >= i + 1 && CountAbove(values, r) >= |values| - i
  {
    var s := Ordered(values);
    var r, i := Percentile(values, p), RankIndex(|values|, p);
    OrderedIsSorted(values);
    hide Ordered, RankIndex, Percentile, CountBelow, CountAbove;
    assert s[i] in multiset(values);
    CountsInOrder(s, i + 1, r);
    CountsInOrder(s, i, r);
    CountsPermute(s, values, r);
  }

  lemma OrderedIsSorted(values: seq<real>)
    ensures |Ordered(values)| == |values| && multiset(Ordered(values)) == multiset(values)
    ensures forall i, j :: 0 <= i <= j < |values| ==> Ordered(values)[i] <= Ordered(values)[j]
  {
    var s := Ordered(values);
    OrderIsTotal();
    SortSorted(values, AtMost());
    SortPermutes(values, AtMost());
    forall i, j | 0 <= i <= j < |values|
      ensures s[i] <= s[j]
    {
      assert i < j ==> AtMost()(s[i], s[j]);
    }
  }

  lemma RankMonotone(n: nat, p: real, q: real)
    requires n > 0 && p <= q
    ensures RankIndex(n, p) <= RankIndex(n, q)
  {
    assert (n - 1) as real * p <= (n - 1) as real * q;
    RoundMonotone((n - 1) as real * p, (n - 1) as real * q);
  }

  /** A higher percentile is never lower; every percentile lies between the extremes, which 0 and 1 reach. */
  lemma PercentilesAreMonotone(values: seq<real>, p: real, q: real)
    requires p <= q
    ensures Percentile(values, p) <= Percentile(values, q)
    ensures forall x :: x in values ==> Percentile(values, 0.0) <= x <= Percentile(values, 1.0)
  {
    if values != [] {
      var s := Ordered(values);
      OrderedIsSorted(values);
      RankMonotone(|values|, p, q);
      RoundToInteger(0.0, 0);
      RoundToInteger((|values| - 1) as real, |values| - 1);
      forall x | x in values
        ensures s[0] <= x <= s[|s| - 1]
      {
        assert x in multiset(values);
      }
    }
  }

  lemma PercentilePermutes(values: seq<real>, other: seq<real>, p: real)
    requires multiset(values) == multiset(other)
    ensures Percentile(values, p) == Percentile(other, p)
  {
    assert |values| == |multiset(values)| == |multiset(other)| == |other|;
    OrderIsTotal();
    SortIsCanonical(values, other, AtMost());
  }

  // ----- the report

  lemma {:induction false} RequestsPermute(a: seq<Request>, b: seq<Request>)
    requires multiset(a) == multiset(b)
    ensures multiset(Latencies(a)) == multiset(Latencies(b)) && Successes(a) == Successes(b)
  {
    assert |a| == |multiset(a)| == |multiset(b)| == |b|;
    if a != [] {
      assert a[0] in multiset(b);
      var j :| 0 <= j < |b| && b[j] == a[0];
      var rest := b[..j] + b[j + 1..];
      MultisetWithout(a, 0);
      MultisetWithout(b, j);
      RequestsPermute(a[1..], rest);
      LatenciesWithout(a, 0);
      LatenciesWithout(b, j);
      SuccessesWithout(b, j);
    }
  }

  lemma LatenciesWithout(b: seq<Request>, j: nat)
    requires j < |b|
    ensures multiset(Latencies(b)) == multiset(Latencies(b[..j] + b[j + 1..])) + multiset{b[j].latency}
    ensures j == 0 ==> Latencies(b[1..]) == Latencies(b[..j] + b[j + 1..])
  {
    var rest := b[..j] + b[j + 1..];
    assert Latencies(b) == Latencies(rest)[..j] + [b[j].latency] + Latencies(rest)[j..];
    assert Latencies(rest) == Latencies(rest)[..j] + Latencies(rest)[j..];
    if j == 0 {
      assert rest == b[1..];
    }
  }

  lemma {:induction false} SuccessesWithout(b: seq<Request>, j: nat)
    requires j < |b|
    ensures Successes(b) == Successes(b[..j] + b[j + 1..]) + (if b[j].ok then 1 else 0)
  {
    var rest := b[..j] + b[j + 1..];
    if j == 0 {
      assert rest == b[1..];
    } else {
      SuccessesWithout(b[1..], j - 1);
      assert rest[1..] == b[1..][..j - 1] + b[1..][j..];
    }
  }

  /** The order in which requests were recorded does not change the report. */
  lemma ReportIgnoresOrder(a: seq<Request>, b: seq<Request>, duration: real)
    requires multiset(a) == multiset(b)
    ensures ParseReport(a, duration) == ParseReport(b, duration)
  {
    assert |a| == |multiset(a)| == |multiset(b)| == |b|;
    RequestsPermute(a, b);
    hide Summary, Percentile, Successes, Total, Latencies;
    PercentilePermutes(Latencies(a), Latencies(b), 0.95);
    PercentilePermutes(Latencies(a), Latencies(b), 0.99);
    CountsPermute(Latencies(a), Latencies(b), 0.0);
  }

  /** Ordered percentiles, an error rate that is a percentage, and no more successes than requests. */
  lemma ReportIsConsistent(requests: seq<Request>, duration: real)
    ensures var r := ParseReport(requests, duration);
      r.p95 <= r.p99 && 0.0 <= r.errorRate <= 100.0 && r.success <= r.total == |requests|
  {
    var latencies := Latencies(requests);
    PercentilesAreMonotone(latencies, 0.95, 0.99);
    Round2Monotone(Percentile(latencies, 0.95), Percentile(latencies, 0.99));
    hide Percentile, Round2;
    if requests != [] {
      var failed, total := (|requests| - Successes(requests)) as real, |requests| as real;
      RatioRange(failed, total, failed / total);
      RoundMonotone(0.0, failed / total * 100.0 * 10000.0);
      RoundMonotone(failed / total * 100.0 * 10000.0, 1000000.0);
      RoundToInteger(0.0, 0);
      RoundToInteger(1000000.0, 1000000);
    }
  }

  /** Throughput times duration is the number of successes, to half a hundredth a second; no duration is one second. */
  lemma ThroughputIsSuccessRate(requests: seq<Request>, duration: real)
    ensures 0.0 < duration ==> (
      var r := ParseReport(requests, duration);
      -0.005 * duration <= r.throughput * duration - r.success as real <= 0.005 * duration)
    ensures duration < 0.0 ==> ParseReport(requests, duration).throughput == 0.0
    ensures ParseReport(requests, 0.0) == ParseReport(requests, 1.0)
  {
    hide Percentile, Round2, Round4, Latencies, Successes, Total;
    if 0.0 < duration {
      var success := Successes(requests) as real;
      Round2Near(success / duration);
      RateGap(success, duration, success / duration, Round2(success / duration));
    }
  }

  lemma RateGap(success: real, duration: real, rate: real, rounded: real)
    requires 0.0 < duration && rate == success / duration && rate - 0.005 <= rounded <= rate + 0.005
    ensures -0.005 * duration <= rounded * duration - success <= 0.005 * duration
  {
    assert rate * duration == success;
    ProductGap(rounded - rate + 0.005, duration);
    ProductGap(rate + 0.005 - rounded, duration);
  }

  lemma {:induction false} TotalBetween(values: seq<real>, low: real, high: real, n: real, total: real)
    requires forall i :: 0 <= i < |values| ==> low <= values[i] <= high
    requires n == |values| as real && total == Total(values)
    ensures low * n <= total <= high * n
  {
    if values != [] {
      TotalBetween(values[1..], low, high, n - 1.0, Total(values[1..]));
      OneFewer(low, n);
      OneFewer(high, n);
    }
  }

  lemma OneFewer(x: real, n: real)
    ensures x * (n - 1.0) == x * n - x
  {
  }

  lemma MeanBetween(low: real, high: real, n: real, total: real, mean: real)
    requires 0.0 < n && low * n <= total <= high * n && mean == total / n
    ensures low <= mean <= high
  {
    assert mean * n == total;
    if mean < low {
      ProductGap(low - mean, n);
    } else if mean > high {
      ProductGap(mean - high, n);
    }
  }

  /** The reported average lies between the rounded extremes of the samples. */
  lemma AverageIsBetweenExtremes(requests: seq<Request>, duration: real)
    requires requests != []
    ensures Round2(Percentile(Latencies(requests), 0.0)) <= ParseReport(requests, duration).average
      <= Round2(Percentile(Latencies(requests), 1.0))
  {
    var values := Latencies(requests);
    PercentilesAreMonotone(values, 0.0, 1.0);
    hide Percentile, Round2, Round4, Latencies, Successes, Total;
    var low, high, n, total := Percentile(values, 0.0), Percentile(values, 1.0), |values| as real, Total(values);
    assert forall i :: 0 <= i < |values| ==> values[i] in values;
    TotalBetween(values, low, high, n, total);
    MeanBetween(low, high, n, total, total / n);
    Round2Monotone(low, total / n);
    Round2Monotone(total / n, high);
  }

  /** A reported error rate of zero hides failures up to one in two million. */
  lemma ZeroErrorRateIff(requests: seq<Request>, duration: real)
    requires requests != []
    ensures ParseReport(requests, duration).errorRate == 0.0 <==>
      (|requests| - Successes(requests)) * 2000000 <= |requests|
  {
    hide *;
    var failed, total := |requests| - Successes(requests), |requests|;
    ErrorRateIs(requests, duration, failed, total);
    RatioRange(failed as real, total as real, failed as real / total as real);
    ScaledFailure(failed as real, total as real, failed as real / total as real);
    ZeroRate(failed as real / total as real);
  }

  lemma ErrorRateIs(requests: seq<Request>, duration: real, failed: nat, total: nat)
    requires requests != [] && failed == |requests| - Successes(requests) && total == |requests|
    ensures ParseReport(requests, duration).errorRate == Round4(failed as real / total as real * 100.0)
  {
    hide Percentile, Round2, Round4;
  }

  lemma ZeroRate(q: real)
    requires 0.0 <= q
    ensures Round4(q * 100.0) == 0.0 <==> q * 1000000.0 <= 0.5
  {
    RoundsToZeroIff(q * 1000000.0);
  }

  lemma RoundsToZeroIff(x: real)
    requires 0.0 <= x
    ensures RoundHalfEven(x) == 0 <==> x <= 0.5
  {
  }

  lemma ScaledFailure(failed: real, total: real, q: real)
    requires 0.0 < total && q == failed / total
    ensures q * 1000000.0 <= 0.5 <==> failed * 2000000.0 <= total
  {
    assert q * total == failed;
    if q * 1000000.0 <= 0.5 {
      ProductGap(0.5 - q * 1000000.0, total);
    } else {
      ProductGap(q * 1000000.0 - 0.5, total);
    }
  }

  /** The rank of a percentile: the nearest to p of the way through the samples. */
  lemma RankIsNearest(n: nat, p: real)
    requires n > 0 && 0.0 <= p <= 1.0
    ensures -0.5 <= RankIndex(n, p) as real - p * (n - 1) as real <= 0.5
  {
    RoundNear((n - 1) as real * p);
    ProductMonotone(0.0, p, 0.0, (n - 1) as real);
    ProductMonotone(p, 1.0, (n - 1) as real, (n - 1) as real);
    RoundMonotone(0.0, (n - 1) as real * p);
    RoundMonotone((n - 1) as real * p, (n - 1) as real);
    RoundToInteger(0.0, 0);
    RoundToInteger((n - 1) as real, n - 1);
  }

  /** The report's own p95 and p99 are rounded samples of rank nearest to 0.95 and 0.99 of the way. */
  lemma PercentilesOfTheReport(requests: seq<Request>, duration: real) returns (p95: real, i: nat, p99: real, j: nat)
    requires requests != []
    ensures var r, n, latencies := ParseReport(requests, duration), |requests|, Latencies(requests);
      && r.p95 == Round2(p95) && r.p99 == Round2(p99) && p95 in latencies && p99 in latencies && i < n && j < n
      && -0.5 <= i as real - 0.95 * (n - 1) as real <= 0.5 && -0.5 <= j as real - 0.99 * (n - 1) as real <= 0.5
      && CountBelow(latencies, p95) >= i + 1 && CountAbove(latencies, p95) >= n - i
      && CountBelow(latencies, p99) >= j + 1 && CountAbove(latencies, p99) >= n - j
  {
    var latencies, n := Latencies(requests), |requests|;
    p95, i := Percentile(latencies, 0.95), RankIndex(n, 0.95);
    p99, j := Percentile(latencies, 0.99), RankIndex(n, 0.99);
    hide Percentile, RankIndex, Round2, Round4, Successes, Total, CountBelow, CountAbove, Latencies;
    assert latencies != [];
    PercentileIsNearestRank(latencies, 0.95);
    PercentileIsNearestRank(latencies, 0.99);
    RankIsNearest(n, 0.95);
    RankIsNearest(n, 0.99);
  }

  /** Counts, error rate and average, to half a unit of the last place. */
  lemma FiguresOfTheReport(requests: seq<Request>, duration: real, failed: nat, n: real, sum: real)
    requires failed == |requests| - Successes(requests) && sum == Total(Latencies(requests))
    requires n == |requests| as real
    ensures var r := ParseReport(requests, duration);
      && r.total == |requests| && r.success + failed == r.total
      && (requests == [] ==> r.errorRate == r.average == r.p95 == r.p99 == 0.0)
      && (requests != [] ==>
        && -0.00005 * n <= r.errorRate * n - 100.0 * failed as real <= 0.00005 * n
        && -0.005 * n <= r.average * n - sum <= 0.005 * n)
  {
    hide *;
    ReportParts(requests, duration, failed, sum);
    if requests == [] {
      NothingReported();
    } else {
      var r := ParseReport(requests, duration);
      FiguresScaled(r.errorRate, r.average, n, failed as real, sum);
    }
  }

  lemma FiguresScaled(errorRate: real, average: real, n: real, failed: real, sum: real)
    requires 0.0 < n && errorRate == Round4(failed / n * 100.0) && average == Round2(sum / n)
    ensures -0.00005 * n <= errorRate * n - 100.0 * failed <= 0.00005 * n
    ensures -0.005 * n <= average * n - sum <= 0.005 * n
  {
    hide *;
    Round4Near(failed / n * 100.0);
    Round2Near(sum / n);
    RateScaled(failed, n, failed / n * 100.0, errorRate);
    RateGap(sum, n, sum / n, average);
  }

  /** Each request counts as a success exactly when it is marked ok. */
  lemma {:induction false} SuccessesAre(requests: seq<Request>)
    ensures (forall i :: 0 <= i < |requests| ==> requests[i].ok) <==> Successes(requests) == |requests|
    ensures (forall i :: 0 <= i < |requests| ==> !requests[i].ok) <==> Successes(requests) == 0
  {
    if requests != [] {
      SuccessesAre(requests[1..]);
      assert forall i :: 0 <= i < |requests| - 1 ==> requests[1..][i] == requests[i + 1];
      assert forall i :: 1 <= i < |requests| ==> requests[i] == requests[1..][i - 1];
    }
  }

  lemma ReportParts(requests: seq<Request>, duration: real, failed: nat, sum: real)
    requires failed == |requests| - Successes(requests) && sum == Total(Latencies(requests))
    ensures var r := ParseReport(requests, duration);
      && r.total == |requests| && r.success == |requests| - failed
      && r.p95 == Round2(Percentile(Latencies(requests), 0.95))
      && r.p99 == Round2(Percentile(Latencies(requests), 0.99))
      && (requests == [] ==> r.errorRate == r.average == 0.0)
      && (requests != [] ==> r.errorRate == Round4(failed as real / |requests| as real * 100.0))
      && (requests != [] ==> r.average == Round2(sum / |requests| as real))
  {
    hide Percentile, Round2, Round4, Successes, Total, Latencies;
  }

  lemma NothingReported()
    ensures Percentile(Latencies([]), 0.95) == Percentile(Latencies([]), 0.99) == 0.0 && Round2(0.0) == 0.0
  {
    RoundToInteger(0.0, 0);
  }

  lemma Round4Near(x: real)
    ensures x - 0.00005 <= Round4(x) <= x + 0.00005
  {
    RoundNear(x * 10000.0);
  }

  lemma RateScaled(failed: real, n: real, rate: real, shown: real)
    requires 0.0 < n && rate == failed / n * 100.0 && rate - 0.00005 <= shown <= rate + 0.00005
    ensures -0.00005 * n <= shown * n - 100.0 * failed <= 0.00005 * n
  {
    var part := failed / n;
    assert part * n == failed;
    assert rate * n == 100.0 * failed;
    ProductGap(shown - rate + 0.00005, n);
    ProductGap(rate + 0.00005 - shown, n);
  }
}

/** The harness's per-request classification, the error rate, the result
    record of one scenario and the SLA verdict printed beside it. */
module Metrics {
  import opened LatencyStats

  // ---------------------------------------------------------------------
  // Success and failure of one request
  // ---------------------------------------------------------------------

  /** The status doPost reports when the POST threw instead of answering. */
  const TransportFailureStatus: int := 0

  /** A request counts as failed unless its status is in [200, 300): the
      rule is exactly "not in the 2xx status class". */
  predicate IsError(status: int): (failed: bool)
    ensures failed <==> status / 100 != 2
  {
    assert 200 <= status < 300 ==> status / 100 == 2;
    assert status < 200 ==> status / 100 < 2;
    assert status >= 300 ==> status / 100 > 2;
    status < 200 || status >= 300
  }

  /** What the HTTP client gave back for one POST: a response with its code,
      or an exception (connection refused, timeout, protocol error). */
  datatype Outcome = Responded(code: int) | TransportFailure

  /** doPost: the response code, or the sentinel 0 when anything threw. */
  function StatusOf(o: Outcome): (status: int)
    ensures IsError(status) <==> (o.TransportFailure? || o.code / 100 != 2)
  {
    match o
    case Responded(code) =>
      code
    case TransportFailure =>
      TransportFailureStatus
  }

  // ---------------------------------------------------------------------
  // Error rate
  // ---------------------------------------------------------------------

  /** errorCount / totalRequests, guarded: 0 when no request was counted. */
  function ErrorRate(errors: nat, total: nat): (rate: real)
    ensures total == 0 ==> rate == 0.0
    ensures total > 0 ==> rate * total as real == errors as real
  {
    if total == 0 then 0.0 else errors as real / total as real
  }

  /** With at most one error per request the rate is a fraction in [0, 1]. */
  lemma ErrorRateIsFraction(errors: nat, total: nat)
    requires errors <= total
    ensures 0.0 <= ErrorRate(errors, total) <= 1.0
  {
    if total > 0 {
      var r := ErrorRate(errors, total);
      assert r * total as real <= 1.0 * total as real;
      assert 0.0 * total as real <= r * total as real;
    }
  }

  /** No errors give rate 0; every request failing gives rate 1. */
  lemma ErrorRateExtremes(total: nat)
    ensures ErrorRate(0, total) == 0.0
    ensures total > 0 ==> ErrorRate(total, total) == 1.0
  {
  }

  // ---------------------------------------------------------------------
  // Result of one scenario (TestResult)
  // ---------------------------------------------------------------------

  datatype TestResult = TestResult(
    name: string,
    totalRequests: int,
    durationSeconds: real,
    rps: real,
    avgLatency: real,
    p90Latency: int,
    p95Latency: int,
    p99Latency: int,
    p999Latency: int,
    p9999Latency: int,
    concurrency: int,
    errorCount: int,
    errorRate: real)

  /** The measured span, (testEnd - testStart) / 1_000_000_000.0. */
  function Seconds(elapsedNanos: nat): (seconds: real)
    ensures seconds * 1_000_000_000.0 == elapsedNanos as real
    ensures 0 < elapsedNanos ==> 0.0 < seconds
  {
    elapsedNanos as real / 1_000_000_000.0
  }

  /** Requests per second over a span of positive length. */
  function Throughput(totalRequests: nat, seconds: real): (rps: real)
    requires 0.0 < seconds
    ensures rps * seconds == totalRequests as real
  {
    totalRequests as real / seconds
  }

  /** p90, p95, p99, p99.9 and p99.99 of sorted samples. */
  function ReportedPercentiles(sorted: seq<int>): (ps: seq<int>)
    requires Sorted(sorted)
    ensures ps == [Percentile(sorted, 0.90), Percentile(sorted, 0.95), Percentile(sorted, 0.99),
                   Percentile(sorted, 0.999), Percentile(sorted, 0.9999)]
    ensures forall k :: 0 <= k < 4 ==> ps[k] <= ps[k + 1]
    ensures |sorted| == 0 ==> forall k :: 0 <= k < 5 ==> ps[k] == 0
    ensures |sorted| > 0 ==> forall k :: 0 <= k < 5 ==> ps[k] in sorted
  {
    ReportedPercentilesOrdered(sorted);
    [Percentile(sorted, 0.90), Percentile(sorted, 0.95), Percentile(sorted, 0.99),
     Percentile(sorted, 0.999), Percentile(sorted, 0.9999)]
  }

  /** Values read from the sorted copy are samples, and the copy is empty
      exactly when there are no samples. */
  lemma SortedCopyFacts(latencies: seq<int>, ps: seq<int>)
    requires forall k :: 0 <= k < |ps| ==> ps[k] in Sort(latencies)
    ensures |Sort(latencies)| == |latencies|
    ensures forall k :: 0 <= k < |ps| ==> ps[k] in latencies
  {
    assert |multiset(Sort(latencies))| == |multiset(latencies)|;
    forall k | 0 <= k < |ps|
      ensures ps[k] in latencies
    {
      SortedValuesAreSamples(latencies, ps[k]);
    }
  }

  /** The TestResult record: the measured span in seconds, the throughput
      and the guarded error rate beside the given latency statistics. */
  function MakeResult(name: string, totalRequests: nat, elapsedNanos: nat, avgLatency: real,
                      ps: seq<int>, concurrency: nat, errorCount: nat): (r: TestResult)
    requires 0 < elapsedNanos && |ps| == 5
    ensures r.name == name && r.totalRequests == totalRequests
    ensures r.concurrency == concurrency && r.errorCount == errorCount
    ensures r.durationSeconds * 1_000_000_000.0 == elapsedNanos as real
    ensures r.rps * r.durationSeconds == totalRequests as real
    ensures r.errorRate == ErrorRate(errorCount, totalRequests)
    ensures r.avgLatency == avgLatency
    ensures [r.p90Latency, r.p95Latency, r.p99Latency, r.p999Latency, r.p9999Latency] == ps
  {
    var seconds := Seconds(elapsedNanos);
    TestResult(name, totalRequests, seconds, Throughput(totalRequests, seconds), avgLatency,
               ps[0], ps[1], ps[2], ps[3], ps[4], concurrency, errorCount, ErrorRate(errorCount, totalRequests))
  }

  /** No requests over a positive span give a throughput of zero. */
  lemma IdleResultHasNoThroughput(name: string, elapsedNanos: nat, avgLatency: real,
                                  ps: seq<int>, concurrency: nat, errorCount: nat)
    requires 0 < elapsedNanos && |ps| == 5
    ensures MakeResult(name, 0, elapsedNanos, avgLatency, ps, concurrency, errorCount).rps == 0.0
  {
    assert 0.0 < Seconds(elapsedNanos);
  }

  /** The reduction at the end of runLoadTest and runSoakTest: timing and
      error rate as in MakeResult, with the average and the percentiles of
      the sorted copy of the latencies. */
  function Summarize(name: string, totalRequests: nat, elapsedNanos: nat,
                     latencies: seq<int>, concurrency: nat, errorCount: nat): (r: TestResult)
    requires 0 < elapsedNanos
    ensures r == MakeResult(name, totalRequests, elapsedNanos, Mean(Sort(latencies)),
                            ReportedPercentiles(Sort(latencies)), concurrency, errorCount)
    ensures r.p90Latency == Percentile(Sort(latencies), 0.90)
    ensures r.p95Latency == Percentile(Sort(latencies), 0.95)
    ensures r.p99Latency == Percentile(Sort(latencies), 0.99)
    ensures r.p999Latency == Percentile(Sort(latencies), 0.999)
    ensures r.p9999Latency == Percentile(Sort(latencies), 0.9999)
    ensures r.p90Latency <= r.p95Latency <= r.p99Latency <= r.p999Latency <= r.p9999Latency
    ensures |latencies| == 0 ==> r.p90Latency == r.p9999Latency == 0 && r.avgLatency == 0.0
    ensures |latencies| > 0 ==>
              r.p90Latency in latencies && r.p95Latency in latencies && r.p99Latency in latencies
              && r.p999Latency in latencies && r.p9999Latency in latencies
  {
    var sorted := Sort(latencies);
    var ps := ReportedPercentiles(sorted);
    assert ps[0] == Percentile(sorted, 0.90) && ps[1] == Percentile(sorted, 0.95)
           && ps[2] == Percentile(sorted, 0.99) && ps[3] == Percentile(sorted, 0.999)
           && ps[4] == Percentile(sorted, 0.9999);
    assert |sorted| == |latencies| && (|latencies| > 0 ==> forall k :: 0 <= k < 5 ==> ps[k] in latencies) by {
      if |latencies| > 0 {
        SortedCopyFacts(latencies, ps);
      } else {
        assert |multiset(sorted)| == 0;
      }
    }
    MakeResult(name, totalRequests, elapsedNanos, Mean(sorted), ps, concurrency, errorCount)
  }

  /** Workers append to the shared list in whatever order the threads
      interleave; any two orders of the same samples give the same result. */
  lemma SummarizeIgnoresOrder(name: string, totalRequests: nat, elapsedNanos: nat,
                              a: seq<int>, b: seq<int>, concurrency: nat, errorCount: nat)
    requires 0 < elapsedNanos && multiset(a) == multiset(b)
    ensures Summarize(name, totalRequests, elapsedNanos, a, concurrency, errorCount)
            == Summarize(name, totalRequests, elapsedNanos, b, concurrency, errorCount)
  {
    SortIgnoresOrder(a, b);
  }

  // ---------------------------------------------------------------------
  // SLA verdict (printSummary)
  // ---------------------------------------------------------------------

  datatype SlaThresholds = SlaThresholds(maxErrorRate: real, p95LatencyMs: int, minRps: real)

  /** The property defaults: 1% errors, 250 ms at p95, 50 requests per second. */
  const DefaultSla := SlaThresholds(0.01, 250, 50.0)

  /** "PASS" exactly when all three thresholds hold at once, else "FAIL". */
  function SlaStatus(r: TestResult, sla: SlaThresholds): (status: string)
    ensures status == "PASS" || status == "FAIL"
    ensures status == "PASS" <==>
              r.errorRate <= sla.maxErrorRate && r.p95Latency <= sla.p95LatencyMs && r.rps >= sla.minRps
  {
    if r.errorRate <= sla.maxErrorRate && r.p95Latency <= sla.p95LatencyMs && r.rps >= sla.minRps
    then "PASS" else "FAIL"
  }

  /** b is at least as lenient as a on every threshold. */
  predicate Looser(a: SlaThresholds, b: SlaThresholds) {
    a.maxErrorRate <= b.maxErrorRate && a.p95LatencyMs <= b.p95LatencyMs && b.minRps <= a.minRps
  }

  /** Relaxing any threshold never turns a PASS into a FAIL. */
  lemma SlaPassSurvivesLooserThresholds(r: TestResult, a: SlaThresholds, b: SlaThresholds)
    requires Looser(a, b) && SlaStatus(r, a) == "PASS"
    ensures SlaStatus(r, b) == "PASS"
  {
  }

  /** A result no worse on error rate, p95 and throughput keeps a PASS. */
  lemma SlaPassSurvivesBetterResult(r: TestResult, better: TestResult, sla: SlaThresholds)
    requires SlaStatus(r, sla) == "PASS"
    requires better.errorRate <= r.errorRate && better.p95Latency <= r.p95Latency && better.rps >= r.rps
    ensures SlaStatus(better, sla) == "PASS"
  {
  }

  /** When every counted request failed the rate is 1, so any SLA that
      tolerates less than 100% errors fails. */
  lemma SlaFailsWhenEveryRequestFails(r: TestResult, sla: SlaThresholds)
    requires 0 < r.totalRequests && r.errorCount == r.totalRequests
    requires r.errorRate == ErrorRate(r.errorCount, r.totalRequests)
    requires sla.maxErrorRate < 1.0
    ensures SlaStatus(r, sla) == "FAIL"
  {
    ErrorRateExtremes(r.totalRequests);
  }

}

# FX load-testing harness and FX controller, modelled in Dafny

This project models two parts of an FX pricing and booking REST service.

- **The load-testing harness** (`LoadTest`). It drives five scenarios against the service, in this order: Baseline, Load, Spike, Soak and Stress.
  - Each worker thread runs loop bodies. A loop body posts a quote with a freshly drawn quote id, then a trade that references that quote id.
  - Each request's latency goes into a shared list. A request whose status is outside 2xx adds one to a shared error counter.
  - Once the workers have been joined, the scenario reports its throughput, average latency, nearest-rank p90/p95/p99/p99.9/p99.99 and error rate.
  - Each result is classified PASS or FAIL against three SLA thresholds.
- **The controller** (`FxController`). Quotes and trades are kept in two repositories.
  - Quotes can be created as sent or generated by a request-for-quote.
  - Quotes and trades can be looked up by id.
  - A trade is saved only when its `quoteId` is null, empty, or names a stored quote.

Modules:

- `Common`: `Option`, for a Java reference that may be null.
- `Decimal`: decimal rendering of an `int`, as in `"Q" + n`. Proved: a round trip back to the number, injectivity, and the digit count.
- `LatencyStats`:
  - the sorted copy of the samples (`Collections.sort`): ascending and a permutation;
  - `getPercentile` and its nearest-rank meaning;
  - the average.
- `Metrics`:
  - the 2xx rule and `doPost`'s status-or-0 contract;
  - the error rate, duration and throughput;
  - the `TestResult` a scenario builds;
  - the SLA verdict of `printSummary`.
- `Templates`: `String.replace` and the two request bodies built from the JSON templates.
- `LoadTest`:
  - the `Sink` class, which stands for the synchronized latency list and the `AtomicInteger` error counter;
  - the worker loops and the two scenario runners, as imperative methods proved against specification functions;
  - the scenario-level lemmas;
  - the five-scenario sequence.
- `FxController`:
  - find-by-id and the first-match search over sequence-modelled repositories;
  - the quote-reference check;
  - the RFQ quote builder;
  - the `FxController` class, whose methods save by appending.

Inputs that the harness gets from outside:

- Time and randomness are inputs:
  - each loop body comes as an `Iteration`, holding its two id draws and, for each POST, the elapsed nanoseconds and the outcome (a status code or a transport failure);
  - a soak worker also gets the clock readings its `while` condition sees;
  - the scenario span in nanoseconds is given.
- Worker faults: `doPost` catches every exception itself. So a worker's `catch` block can only be reached when opening or closing the HTTP client throws. This is the `ClientFault` of a worker.
- A future not joined in time adds one error, then fails the whole run. This is `Aborted`, and the later scenarios do not run.
- `Executors.newFixedThreadPool` throws `IllegalArgumentException` for a pool of no threads, before any worker is submitted. This is `Rejected`, and it also ends the run.

One consequence of the controller: `createTrade` returns its error object as an ordinary response body, so the HTTP status is 200. The harness therefore counts a trade rejected for an unknown quote id as a successful request. `Metrics.StatusOf` and `LoadTest.ErrorsIn` model exactly this: only the status code decides.

`getPercentile` expects a list that is already sorted, as its doc comment says (LoadTest.java:358-362). The scenario runner sorts a copy once before the five calls (LoadTest.java:254-255). The model keeps this split: `LatencyStats.Sort` is the copy. `LatencyStats.Percentile` reads whatever list it is given, as the Java method does, and the lemmas about ordering and nearest rank assume a sorted list.

## Model

| member | source | states |
|---|---|---|
| LatencyStats.Sort | src/test/java/com/example/fx/load/LoadTest.java:254-255 | The sorted copy of the samples is ascending and has exactly the same elements with the same multiplicities. |
| LatencyStats.SortedValuesAreSamples | src/test/java/com/example/fx/load/LoadTest.java:254-255 | Every value in the sorted copy is one of the recorded samples. |
| LatencyStats.SortIgnoresOrder | src/test/java/com/example/fx/load/LoadTest.java:254-255 | Two sample lists with the same elements have the same sorted copy, whatever order the threads appended them in. |
| LatencyStats.Ceil | src/test/java/com/example/fx/load/LoadTest.java:366 | Math.ceil: the least integer not below x. |
| LatencyStats.PercentileIndex | src/test/java/com/example/fx/load/LoadTest.java:366-367 | After ceil(rank*n)-1 is clamped, the index is always a valid position in a non-empty list, for any rank. |
| LatencyStats.Percentile | src/test/java/com/example/fx/load/LoadTest.java:364-369 | getPercentile is 0 on an empty list for any rank; otherwise it is an element of the list. |
| LatencyStats.PercentileIndexMonotone | src/test/java/com/example/fx/load/LoadTest.java:366-367 | A larger rank never reads an earlier index. |
| LatencyStats.PercentileMonotone | src/test/java/com/example/fx/load/LoadTest.java:366-368 | On a sorted list the percentile is non-decreasing in the rank. |
| LatencyStats.ReportedPercentilesOrdered | src/test/java/com/example/fx/load/LoadTest.java:257-261 | The five reported percentiles satisfy p90 <= p95 <= p99 <= p99.9 <= p99.99. |
| LatencyStats.FullRankIsMaximum | src/test/java/com/example/fx/load/LoadTest.java:366-368 | Rank 1.0 reads the last sorted sample, which is at least every sample. |
| LatencyStats.PercentileIsNearestRank | src/test/java/com/example/fx/load/LoadTest.java:364-369 | For rank in (0, 1] on sorted samples, at least rank*n samples are at or below the result and fewer than rank*n are strictly below it (nearest rank, no interpolation). |
| LatencyStats.IndexIsNearestRank | src/test/java/com/example/fx/load/LoadTest.java:366-367 | For a scaled rank x in (0, n] the clamp never bites: the index is the first position i with x <= i+1. |
| LatencyStats.Mean | src/test/java/com/example/fx/load/LoadTest.java:256 | The average is 0 when there are no samples; otherwise average times count equals the sum. |
| LatencyStats.MeanWithinBounds | src/test/java/com/example/fx/load/LoadTest.java:256 | The average of a non-empty sample list lies between any lower and upper bound of its samples. |
| Metrics.IsError | src/test/java/com/example/fx/load/LoadTest.java:218 | A status counts as an error exactly when it is not in the 2xx class (`status / 100 != 2`). |
| Metrics.StatusOf | src/test/java/com/example/fx/load/LoadTest.java:424-435 | doPost gives the response code, or 0 when anything throws; the result counts as an error exactly for a transport failure or a non-2xx code. |
| Metrics.ErrorRate | src/test/java/com/example/fx/load/LoadTest.java:263 | The error rate is 0 when the total is 0; otherwise rate times total equals the error count. |
| Metrics.ErrorRateIsFraction | src/test/java/com/example/fx/load/LoadTest.java:263 | When there are at most as many errors as requests, the rate lies in [0, 1]. |
| Metrics.ErrorRateExtremes | src/test/java/com/example/fx/load/LoadTest.java:263 | No errors give rate 0; every request failing gives rate 1. |
| Metrics.Seconds | src/test/java/com/example/fx/load/LoadTest.java:250 | The duration in seconds times 1e9 is the elapsed nanoseconds, and it is positive for a positive span. |
| Metrics.Throughput | src/test/java/com/example/fx/load/LoadTest.java:251 | rps times duration equals the request total. |
| Metrics.ReportedPercentiles | src/test/java/com/example/fx/load/LoadTest.java:257-261 | The five values are the percentiles at ranks 0.90, 0.95, 0.99, 0.999 and 0.9999, in that order. They are ascending, all 0 for no samples, and otherwise each is a sample. |
| Metrics.SortedCopyFacts | src/test/java/com/example/fx/load/LoadTest.java:254-261 | The sorted copy has as many samples as the list, and the percentiles read from it are samples of the list. |
| Metrics.MakeResult | src/test/java/com/example/fx/load/LoadTest.java:249-266 | The TestResult carries the name, total, concurrency and error count unchanged. Its duration, rps and error rate are the derived quantities, and its percentiles are the given five in order. |
| Metrics.Summarize | src/test/java/com/example/fx/load/LoadTest.java:249-266 | A scenario result is built from the sorted copy of the samples. Its p90, p95, p99, p99.9 and p99.99 are the nearest-rank percentiles of that copy at those ranks, and they are ascending. Without samples they and the average are 0; otherwise each is a sample. |
| Metrics.SummarizeIgnoresOrder | src/test/java/com/example/fx/load/LoadTest.java:254-266 | Two orders of the same samples give the same scenario result. |
| Metrics.SlaStatus | src/test/java/com/example/fx/load/LoadTest.java:389-390 | The verdict is "PASS" exactly when error rate <= max, p95 <= max and rps >= min all hold; otherwise "FAIL". |
| Metrics.SlaPassSurvivesLooserThresholds | src/test/java/com/example/fx/load/LoadTest.java:389-390 | A result that passes still passes under thresholds at least as lenient on all three counts. |
| Metrics.SlaPassSurvivesBetterResult | src/test/java/com/example/fx/load/LoadTest.java:389-390 | A result no worse on error rate, p95 and rps than a passing one also passes. |
| Metrics.SlaFailsWhenEveryRequestFails | src/test/java/com/example/fx/load/LoadTest.java:389-390 | When every counted request failed, any SLA tolerating less than 100% errors gives "FAIL". |
| Decimal.DecimalString | src/test/java/com/example/fx/load/LoadTest.java:209-210 | The decimal rendering of a number is non-empty, all digits, and has no leading zero. |
| Decimal.DecimalRoundTrip | src/test/java/com/example/fx/load/LoadTest.java:209-210 | Reading back the decimal rendering gives the number. |
| Decimal.DecimalInjective | src/test/java/com/example/fx/load/LoadTest.java:209-210 | Different numbers render differently. |
| Decimal.DecimalLength | src/test/java/com/example/fx/load/LoadTest.java:209-210 | A number in [10^(k-1), 10^k) renders with exactly k digits. |
| Templates.ReplaceAllNoMatch | src/test/java/com/example/fx/load/LoadTest.java:213 | String.replace leaves a string without an occurrence of the target unchanged. |
| Templates.ReplaceAllOneHole | src/test/java/com/example/fx/load/LoadTest.java:213 | A string with exactly one occurrence of the target gets the replacement in its place and nothing else changes. |
| Templates.QuoteBodyCarriesId | src/test/java/com/example/fx/load/LoadTest.java:213 | A quote template with one `${quoteId}` hole yields the template with the quote id in the hole. |
| Templates.TradeBodyCarriesIds | src/test/java/com/example/fx/load/LoadTest.java:221-223 | A trade template with one `${tradeId}` hole followed by one `${quoteId}` hole yields the template with both ids in place. |
| Templates.ReplaceAll | src/test/java/com/example/fx/load/LoadTest.java:213 | String.replace: a replacement as long as the target keeps the string's length (an empty target inserts it once more at the end). |
| Templates.QuoteBody | src/test/java/com/example/fx/load/LoadTest.java:213 | A quote template without a `${quoteId}` hole is posted unchanged. |
| Templates.TradeBody | src/test/java/com/example/fx/load/LoadTest.java:221-223 | A trade template with neither a `${tradeId}` nor a `${quoteId}` hole is posted unchanged. |
| LoadTest.GeneratedIdShape | src/test/java/com/example/fx/load/LoadTest.java:209-210 | A draw in [100000, 999999) gives "Q" or "T" followed by six digits, and different draws give different ids. |
| LoadTest.GeneratedId | src/test/java/com/example/fx/load/LoadTest.java:209-210 | A quote id ("Q") or trade id ("T") is its letter followed by digits that read back as the draw. |
| LoadTest.LatencyMs | src/test/java/com/example/fx/load/LoadTest.java:217 | The recorded latency is the elapsed nanoseconds divided by 10^6 with the remainder dropped: the whole milliseconds m with m * 10^6 <= elapsed < (m + 1) * 10^6. |
| LoadTest.TradeReferencesItsQuote | src/test/java/com/example/fx/load/LoadTest.java:209-223 | For a quote template with exactly one `${quoteId}` hole, and a trade template with exactly one `${tradeId}` hole followed by exactly one `${quoteId}` hole, the trade a loop body posts carries the same quote id as the quote it posted just before. Other template shapes are not covered. |
| LoadTest.Latencies | src/test/java/com/example/fx/load/LoadTest.java:208-228 | n loop bodies append exactly 2n latency samples. |
| LoadTest.Errors | src/test/java/com/example/fx/load/LoadTest.java:218-228 | n loop bodies add at most 2n to the error counter. |
| LoadTest.LatenciesAppend | src/test/java/com/example/fx/load/LoadTest.java:208-228 | Running two stretches of loop bodies one after the other records the concatenation of their samples and the sum of their errors. |
| LoadTest.ErrorsOfUniformRuns | src/test/java/com/example/fx/load/LoadTest.java:218-228 | Loop bodies whose requests all get 2xx add no error; against an unreachable service they add one error per request. |
| LoadTest.Sink.constructor | src/test/java/com/example/fx/load/LoadTest.java:199-200 | The shared latency list starts empty and the error counter at 0. |
| LoadTest.Sink.Record | src/test/java/com/example/fx/load/LoadTest.java:217-218 | Recording a request appends its whole-millisecond latency and adds 1 to the counter exactly when its status is not 2xx. |
| LoadTest.Sink.CountError | src/test/java/com/example/fx/load/LoadTest.java:231 | A caught exception adds 1 to the counter and leaves the latency list alone. |
| LoadTest.RunIteration | src/test/java/com/example/fx/load/LoadTest.java:209-228 | One loop body records its two samples and errors, and sends the quote body and the trade body built from the templates with the drawn ids. |
| LoadTest.RunIterations | src/test/java/com/example/fx/load/LoadTest.java:208-229 | requestsPerThread loop bodies record Latencies and Errors of the iterations in order. |
| LoadTest.RunLoadWorker | src/test/java/com/example/fx/load/LoadTest.java:206-233 | A worker records its loop bodies. A client that fails to open records nothing and adds 1 error; one that fails to close adds 1 error after the loop. |
| LoadTest.WorkerErrors | src/test/java/com/example/fx/load/LoadTest.java:207-232 | A worker adds at most one error per sample it recorded, plus one when its client throws. A fault always adds at least one; without a fault it adds at most one per sample. |
| LoadTest.LocalCountIsSampleCount | src/test/java/com/example/fx/load/LoadTest.java:301-313 | A soak worker's localCount is even and equals the number of samples it appended. |
| LoadTest.RunSoakPass | src/test/java/com/example/fx/load/LoadTest.java:292-314 | One pass of the soak while body records its loop bodies and adds 2 per loop body to the count. |
| LoadTest.RunSoakWorker | src/test/java/com/example/fx/load/LoadTest.java:288-320 | A soak worker runs passes while the clock is before endTime, records their samples and errors, and returns 2 per loop body run. |
| LoadTest.RunSoakPasses | src/test/java/com/example/fx/load/LoadTest.java:291-315 | The while loop of a soak worker whose client opened records the samples and errors of all its passes, and localCount is 2 per loop body. |
| LoadTest.SoakWorkerErrors | src/test/java/com/example/fx/load/LoadTest.java:290-318 | A soak worker adds at most one error per sample it recorded, plus one when its client throws. A fault always adds at least one; without a fault it adds at most localCount. |
| LoadTest.RunLoadWorkers | src/test/java/com/example/fx/load/LoadTest.java:205-234 | After all workers run, the sink holds AllLatencies and AllErrors of the workers. |
| LoadTest.JoinLoadWorkers | src/test/java/com/example/fx/load/LoadTest.java:237-244 | The join loop succeeds exactly when every future is joined; the first failure adds 1 error and stops it. |
| LoadTest.RunLoadScenario | src/test/java/com/example/fx/load/LoadTest.java:196-267 | A thread count of 0 is rejected by the pool before any worker runs. Otherwise the scenario aborts exactly when some worker is not joined, and a completed scenario's result is LoadResult of its workers. |
| LoadTest.RunLoadPool | src/test/java/com/example/fx/load/LoadTest.java:198-266 | Once the pool exists, the scenario completes exactly when every worker is joined, with the summary of the recorded samples and errors and totalRequests = threads * requestsPerThread * 2; otherwise it aborts with its name. |
| LoadTest.RunSoakWorkers | src/test/java/com/example/fx/load/LoadTest.java:287-321 | After all soak workers run, the sink holds their samples and errors, and each returned count is that worker's localCount. |
| LoadTest.JoinSoakWorkers | src/test/java/com/example/fx/load/LoadTest.java:324-332 | The join loop succeeds exactly when every future is joined, and then its total is the sum of the localCount values. |
| LoadTest.SoakTotal | src/test/java/com/example/fx/load/LoadTest.java:324-328 | totalRequestsSoak, the sum of the returned localCount values, is even. |
| LoadTest.RunSoakScenario | src/test/java/com/example/fx/load/LoadTest.java:278-355 | A thread count of 0 is rejected by the pool before any worker runs. Otherwise the soak scenario aborts exactly when some worker is not joined, and a completed one's result is SoakResult of its workers. |
| LoadTest.RunSoakPool | src/test/java/com/example/fx/load/LoadTest.java:280-354 | Once the pool exists, the soak scenario completes exactly when every worker is joined, with the summary of the recorded samples and errors and totalRequestsSoak = the sum of the worker counts; otherwise it aborts with its name. |
| LoadTest.LoadSampleCount | src/test/java/com/example/fx/load/LoadTest.java:201-229 | When every client opens, the pre-computed totalRequests equals the number of latency samples recorded. |
| LoadTest.LoadErrorCounts | src/test/java/com/example/fx/load/LoadTest.java:218-232 | Without client faults the error count is at most the sample count. It is 0 when every request gets 2xx, and equals the sample count against an unreachable service. |
| LoadTest.CleanLoadScenario | src/test/java/com/example/fx/load/LoadTest.java:263-266 | A scenario whose requests all get 2xx reports error count 0 and error rate 0. |
| LoadTest.UnreachableServiceFailsSla | src/test/java/com/example/fx/load/LoadTest.java:389-390 | When every request fails in the transport, the error rate is 1 and the verdict is FAIL for any maxErrorRate below 1. |
| LoadTest.SoakTotalCountsSamples | src/test/java/com/example/fx/load/LoadTest.java:324-328 | totalRequestsSoak equals the number of samples the soak workers recorded, and it is even. |
| LoadTest.SoakErrorRateIsFraction | src/test/java/com/example/fx/load/LoadTest.java:351 | Without client faults the soak error count is at most the soak total, so the soak error rate lies in [0, 1]. |
| LoadTest.LoadResult | src/test/java/com/example/fx/load/LoadTest.java:249-266 | A completed load scenario reports its name and thread count, totalRequests = threads * requestsPerThread * 2, the errors the workers counted with their guarded rate, and the p95 of the sorted samples. |
| LoadTest.SoakResult | src/test/java/com/example/fx/load/LoadTest.java:337-354 | A completed soak scenario reports its name and thread count, totalRequestsSoak, the errors the workers counted with their guarded rate, and the p95 of the sorted samples. |
| LoadTest.IdleScenarioFailsSla | src/test/java/com/example/fx/load/LoadTest.java:389-390 | A scenario that sent nothing has rps 0 and fails any SLA with a positive minimum rps. |
| LoadTest.RunAllScenarios | src/test/java/com/example/fx/load/LoadTest.java:171-183 | The five scenarios run in the order Baseline, Load, Spike, Soak, Stress with their own parameters. The run yields its five results exactly when every scenario has a positive thread count and no worker of any scenario fails to join. |
| FxController.FindById | src/main/java/com/example/fx/controller/FxController.java:35-38 | find-by-id yields a stored entity with that id, and yields nothing exactly when no stored entity has it. |
| FxController.FindByIdPositional | src/main/java/com/example/fx/controller/FxController.java:36-38 | When identities are assigned in saving order, looking up id k yields the k-th saved entity, and ids never assigned yield nothing. |
| FxController.IdsFromAppend | src/main/java/com/example/fx/controller/FxController.java:40-43 | Saving with the next identity keeps identities in saving order. |
| FxController.FindFirstQuote | src/main/java/com/example/fx/controller/FxController.java:107-109 | The search yields the first stored quote whose quoteId equals the given one, and yields nothing exactly when no stored quote has it. |
| FxController.ValidateQuoteReference | src/main/java/com/example/fx/controller/FxController.java:105-113 | There is no error exactly when the quoteId is null, empty, or some stored quote has it; the error text is "Invalid quoteId: " followed by the id. |
| FxController.SavedQuoteValidatesReference | src/main/java/com/example/fx/controller/FxController.java:106-114 | A trade naming the quoteId of a quote just saved is accepted. |
| FxController.AcceptedReferenceStaysAccepted | src/main/java/com/example/fx/controller/FxController.java:107-110 | Saving more quotes never turns an accepted quote reference into a rejected one. |
| FxController.RfqQuote | src/main/java/com/example/fx/controller/FxController.java:51-73 | The RFQ quote copies the currency pair and uses the request's tenor when it is non-null, else "SPOT". It sets the fixed literal fields. Its quoteId is "Q" and five digits with value in [10000, 99999]. |
| FxController.RfqQuoteIdDigits | src/main/java/com/example/fx/controller/FxController.java:57 | 10000 + nextInt(90000) renders as five digits that read back as the same number. |
| FxController.FxController.constructor | src/main/java/com/example/fx/controller/FxController.java:23-26 | The controller starts over two empty repositories. |
| FxController.FxController.GetQuoteById | src/main/java/com/example/fx/controller/FxController.java:35-38 | A lookup yields a stored quote with that id, or null exactly when none has it. |
| FxController.FxController.GetTradeById | src/main/java/com/example/fx/controller/FxController.java:97-100 | A lookup yields a stored trade with that id, or null exactly when none has it. |
| FxController.FxController.CreateQuote | src/main/java/com/example/fx/controller/FxController.java:40-43 | Any quote is saved without validation, with the next identity, and the trade store is unchanged. Looking up the new identity finds the saved quote. |
| FxController.FxController.CreateTrade | src/main/java/com/example/fx/controller/FxController.java:102-115 | A rejected trade returns the "Invalid quoteId" error and leaves both stores unchanged. An accepted trade (null or empty quoteId, or a stored one) is appended with the next identity and found by it. The quote store never changes. |
| FxController.FxController.RequestForQuote | src/main/java/com/example/fx/controller/FxController.java:45-88 | The RFQ quote built from the request and the draws is saved with the next identity. The saved quote has the requested currency pair and a "Q" + five-digit quoteId. |

## Left out

- Threads, the executor, `Collections.synchronizedList` and `AtomicInteger` contention are not modelled. Workers of a scenario run one after another. Any interleaving only permutes the latency list, and `Metrics.SummarizeIgnoresOrder` shows the result does not change. The error count is a sum, so order does not affect it either.
- `System.nanoTime` and `System.currentTimeMillis` are inputs, not clocks: the per-request nanoseconds, the scenario span and the soak worker's clock readings are given. Their consistency with each other (monotonic time) is not modelled.
- LoadTest.RunLoadScenario: thread counts are `nat`, so only the count 0 is rejected as `newFixedThreadPool` rejects it. A negative count, which Java rejects the same way, cannot be written.
- `executor.awaitTermination` is taken to succeed once every future has been joined, because all tasks are done by then. A timeout of that call is not modelled.
- `Aborted` carries only the scenario name. The exception message that `Assertions.fail` appends is not modelled.
- `double` arithmetic is modelled with exact reals. Rounding of `percentile * size`, of the average, the duration, rps and the error rate is not modelled, and neither is the `(int)` cast of a huge `Math.ceil` value.
- `Metrics.Seconds`, `Metrics.MakeResult` and `Metrics.Summarize` require a positive span. A zero span, where Java produces an infinite or NaN rps, is not modelled.
- Java `int` and `long` overflow is not modelled: `threads * requestsPerThread * 2`, `totalRequestsSoak` and the error counter are unbounded integers.
- `ThreadLocalRandom` draws are inputs to each `Iteration`. Their range [100000, 999999) is assumed only by `LoadTest.GeneratedIdShape`.
- Other exceptions in a worker's try block are not modelled. `String.replace` on the loaded templates, the random draws and the list append do not throw, and `doPost` catches everything. Only the client's opening and closing can reach the worker's `catch`.
- `doPost` is modelled only by its status-or-0 contract. How the request is sent (headers, entity, `executeOpen`) is not modelled.
- `printSummary` formatting, its legend, the unused maximum it computes, and the other text output are not modelled. Only the SLA verdict (`Metrics.SlaStatus`) is.
- Property-file and template loading in `setup` are not modelled. `LoadTest.DefaultConfig` and `Metrics.DefaultSla` hold the default values. CPU pinning with `taskset` is not modelled.
- JPA repositories are not visible. `save` is assumed to append the entity with the next identity value (1, 2, 3, ...), and an id supplied by the client is replaced. Merge-on-existing-id, deletes and concurrent requests are not modelled.
- `getAllQuotes` and `getAllTrades` are not modelled; they return a repository's stored sequence as it is.
- `requestForQuote` details that are not modelled:
  - the `Thread.sleep` delay;
  - `quoteTime` (`LocalDateTime.now()`);
  - the `bid`/`ask`/`mid` prices from `nextDouble` and `BigDecimal`.
  The `Random` draws are the `RfqDraws` input.
- Trade fields other than `id`, `tradeId`, `currencyPair` and `quoteId` are not modelled. The controller stores them unchanged and never reads them.
- The API contract tests, the OpenAPI validation test and `OpenApiConfig` are not modelled. They exercise a running server or configure documentation.

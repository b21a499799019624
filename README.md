# A verified model of the scanner's network-scanning engine

This project models, in Dafny, the sequential rules of the Go `scanner`
package of a reconnaissance pipeline: the token-bucket rate limiters, the
retry loop and circuit breaker, TCP service fingerprinting, the HTTP prober,
the web crawler's bookkeeping, the response analyser, DNS resolution with
retries, subdomain enumeration and the command-line helpers. Everything the
engine learns from the outside world (DNS answers, TCP connections and banner
bytes, HTTP responses, third-party API bodies, regular-expression matches,
`url.Parse`, the clock, random jitter, Go map iteration order) is a parameter:
a function or a sequence the caller supplies. The concurrent worker pools are
modelled by their sequential meaning, one job after the other.

One module per Go source file, plus two helper modules:

- `Strings` (strings.dfy): the parts of Go's `strings` package the engine
  uses, over ASCII: `TrimSpace`, `HasPrefix`, `HasSuffix`, `Contains`,
  `Split`, `Join`, `ToLower`, `ToUpper`, with the lemmas the other modules need
  (split/join round trip, trimming idempotence).
- `Collections` (collections.dfy): first-occurrence de-duplication (the
  "seen map" idiom of the source), `Mapped` (filter-map), `Flatten`, `Take`,
  and the loops that compute them.
- `RateLimiting` (rate_limiter.dfy, from scanner/utils/rate-limiter.go):
  classes `RateLimiter`, `AdaptiveRateLimiter` and `PerHostRateLimiter` whose
  methods update their fields as the source does; the bucket invariant
  `0 <= tokens <= burst` is kept by every operation with non-negative
  arguments (as in Go, `AllowN` with a negative n, and `SetRate` or
  `SetBurst` with a negative value, can break it).
- `Retrying` (retry.go): `RetryWithBackoff` as a loop over an environment of
  call outcomes, cancellation flags and jitter draws; the delay schedule; the
  policies; the circuit breaker as a class with a three-state invariant.
- `ServiceDetection` (service-detect.go) and `PortScanning` (scanner.go):
  the port tables, banner cleaning and classification, case-insensitive
  search, and a scan as the Open results of the host-by-port job list.
- `HttpProbing` (prober.go), `Crawling` (crawler.go), `ResponseAnalysis`
  (response-analyzer.go): normalisation, the retry loop around a probe,
  title and technology extraction, the crawler's seen set and queueing rules
  (a `Crawler` class), and the analyser's capped, de-duplicated lists.
- `DnsResolution` (resolver.go) and `SubdomainEnumeration` (enumerator.go):
  the retried lookup, worker-to-server pinning, the first-wins `addResult`
  (a `Scanner` class) and the parsing of the crt.sh, hackertarget,
  threatcrowd and wordlist inputs.
- `Cli` (main.go): the port-specification parser, including the parts of
  `fmt.Sscanf` it relies on, target-file filtering, and text output.

Go strings are byte strings; the model uses `string` with one character
per byte, and case mapping and white space are ASCII. Go `int` and
`time.Duration` are modelled as unbounded integers; the 64-bit range is
modelled only where `Sscanf` rejects values outside int64. The places where
a 64-bit product or counter of the source can wrap around are listed under
"Left out". Time is a `real` number of seconds
in the rate limiter and integer nanoseconds (`time.Duration`) elsewhere.

## Model

| member | source | states |
|---|---|---|
| RateLimiting.Trunc | scanner/utils/rate-limiter.go:24 | truncation toward zero: for x ≥ 0 the result r is non-negative with r ≤ x < r + 1; for x < 0 it is non-positive with r − 1 < x ≤ r |
| RateLimiting.GoDiv | scanner/utils/rate-limiter.go:207 | truncating division by a positive b: the remainder a − q·b lies strictly between −b and b, is never negative for a ≥ 0 and never positive for a < 0 |
| RateLimiting.InitialRate | scanner/utils/rate-limiter.go:20-22 | the rate is always positive: a positive request is kept, anything else becomes 10 |
| RateLimiting.InitialBurst | scanner/utils/rate-limiter.go:23-25 | the burst is never negative: a positive request is kept, anything else becomes int(rate) of the defaulted rate |
| RateLimiting.Refill | scanner/utils/rate-limiter.go:69-73 | refilled tokens never exceed the burst nor tokens + elapsed·rate, and equal one of the two |
| RateLimiting.Debit | scanner/utils/rate-limiter.go:100-106 | all or nothing: n tokens are debited exactly when at least n are there, otherwise nothing changes |
| RateLimiting.InstantSuccesses | scanner/utils/rate-limiter.go:62-83 | definition: the number of k calls of Allow at one instant that succeed, each a refill over no time and a debit of one; bounded by InstantSuccessesBounded |
| RateLimiting.RefillInBounds | scanner/utils/rate-limiter.go:69-73 | from 0 ≤ tokens ≤ burst a refill over non-negative time lands between the old tokens and the burst |
| RateLimiting.RefillComposes | scanner/utils/rate-limiter.go:69-74 | refilling over e1 then e2 equals one refill over e1 + e2 |
| RateLimiting.DebitInBounds | scanner/utils/rate-limiter.go:100-104 | a debit of n ≥ 0 keeps tokens within 0 and their old value |
| RateLimiting.InstantSuccessesBounded | scanner/utils/rate-limiter.go:62-83 | with no time passing, at most floor(tokens) ≤ burst of any number of Allow calls succeed |
| RateLimiting.ReserveWait | scanner/utils/rate-limiter.go:124-131 | no wait when a token is there; otherwise a positive wait after which the rate has supplied exactly the missing fraction of a token |
| RateLimiting.ReserveRefillAfterWait | scanner/utils/rate-limiter.go:130-133 | refilling the emptied bucket over the returned wait yields exactly the deficit 1 − tokens |
| RateLimiting.RateLimiter.constructor | scanner/utils/rate-limiter.go:19-33 | the limiter starts full (tokens = burst) with the defaulted rate and burst |
| RateLimiting.RateLimiter.Allow | scanner/utils/rate-limiter.go:62-83 | true iff the refilled tokens are at least 1, and then exactly one is debited; on false the tokens are the refilled value; 0 ≤ tokens ≤ burst is kept |
| RateLimiting.RateLimiter.AllowN | scanner/utils/rate-limiter.go:86-107 | after the refill, n tokens are debited iff n are there and nothing otherwise; the bounds are kept for n ≥ 0 |
| RateLimiting.RateLimiter.Reserve | scanner/utils/rate-limiter.go:110-134 | returns 0 and debits one token when one is there; otherwise returns (1 − tokens)/rate and empties the bucket |
| RateLimiting.RateLimiter.SetRate | scanner/utils/rate-limiter.go:137-141 | only the rate changes |
| RateLimiting.RateLimiter.SetBurst | scanner/utils/rate-limiter.go:144-151 | the burst is replaced, tokens are clamped down to it, the rate is unchanged |
| RateLimiting.Window | scanner/utils/rate-limiter.go:185-188 | the new sample is appended and the oldest dropped once the window would exceed its size, so it never holds more than the maximum |
| RateLimiting.AdjustedRateInBand | scanner/utils/rate-limiter.go:211-236 | a rate within [minRate, maxRate] stays within it after an adjustment |
| RateLimiting.AdjustedRateDirection | scanner/utils/rate-limiter.go:214-235 | the rate never rises above the target latency, never falls below half of it, and is unchanged in between |
| RateLimiting.AdaptiveRateLimiter.constructor | scanner/utils/rate-limiter.go:165-173 | an empty window of at most 100 samples and an inner limiter built with burst int(initialRate) |
| RateLimiting.AdjustedRate | scanner/utils/rate-limiter.go:211-236 | definition: halve above twice the target, ×0.8 above the target, ×1.2 below half of it (truncated), each clamped to the band; its bounds are AdjustedRateInBand and AdjustedRateDirection |
| RateLimiting.AdaptiveRateLimiter.AverageLatency | scanner/utils/rate-limiter.go:198-208 | 0 for no samples, otherwise the sum divided by the count with Go's truncating division |
| RateLimiting.AdaptiveRateLimiter.AdjustRate | scanner/utils/rate-limiter.go:211-236 | only the inner limiter's rate changes: ×0.5 above twice the target, ×0.8 above it (both floored at minRate), ×1.2 below half of it (capped at maxRate) |
| RateLimiting.AdaptiveRateLimiter.RecordLatency | scanner/utils/rate-limiter.go:181-195 | the window is updated; with fewer than 10 samples the rate stays, otherwise it is adjusted by the truncated mean |
| RateLimiting.PerHostRateLimiter.constructor | scanner/utils/rate-limiter.go:247-253 | no limiters yet, with the per-host rate and burst |
| RateLimiting.PerHostRateLimiter.GetLimiter | scanner/utils/rate-limiter.go:268-288 | a known host gets its limiter and the map is unchanged; otherwise exactly one new full limiter is added for that host and every other entry is untouched |
| Retrying.IsRetryable | scanner/utils/retry.go:105-118 | true for every error when the list is empty, otherwise iff the error matches some entry as errors.Is does |
| Retrying.WrappedStaysRetryable | scanner/utils/retry.go:101 | the "max retries exceeded" error wraps its cause, so errors.Is still finds every entry the cause matched |
| Retrying.DefaultRetryConfig | scanner/utils/retry.go:23-31 | 3 retries, 100ms, 10s, factor 2.0, jitter on and no retryable list |
| Retrying.Normalize | scanner/utils/retry.go:38-49 | each non-positive field is replaced by its default and the others are kept; a normalised config is a fixed point |
| Retrying.JitterBounds | scanner/utils/retry.go:154-161 | a jittered duration lies within ±factor of the base, up to the truncation of the conversion |
| Retrying.NextDelay | scanner/utils/retry.go:95-98 | the next delay never exceeds MaxDelay and is never negative |
| Retrying.JitterDuration | scanner/utils/retry.go:154-161 | definition: d moved by (2x − 1)·f·d for the draw x, f falling back to 0.3 outside (0, 1], truncated; bounded by JitterBounds |
| Retrying.RetryWithBackoff | scanner/utils/retry.go:37-102 | the loop computes exactly the recursive attempt semantics Run on the normalised config |
| Retrying.RetryWithResult | scanner/utils/retry.go:128-142 | the attempt count is the number of calls made, at most MaxRetries + 1, and the error is the loop's |
| Retrying.Run | scanner/utils/retry.go:37-102 | definition: the attempts from one on, with the context check, the call, the retryable test, the last-attempt wrap and the cancellable wait in source order; its properties are the Run lemmas below |
| Retrying.RunBounds | scanner/utils/retry.go:54-99 | at most MaxRetries + 1 calls in all, never more waits than calls, and no more than MaxRetries waits |
| Retrying.RunSuccessIsReal | scanner/utils/retry.go:62-65 | a nil result means the last call made returned nil |
| Retrying.RunExhausted | scanner/utils/retry.go:54-101 | an always-failing retryable call is made exactly MaxRetries + 1 times, with a wait between consecutive calls, and the last error is wrapped as "max retries (N) exceeded" |
| Retrying.RunFirstDecisive | scanner/utils/retry.go:62-72 | the first nil or non-retryable result is returned unchanged after exactly that many calls |
| Retrying.RunCancelled | scanner/utils/retry.go:54-91 | after retryable failures that waited in full, a context done before attempt k returns the context error after k calls, and one ending the wait after a retryable failure of attempt k returns it after k + 1 calls |
| Retrying.RunContinues | scanner/utils/retry.go:74-98 | a retry waits the jittered current delay and continues with the grown delay; other exits do not wait |
| Retrying.RunWaitsFollowSchedule | scanner/utils/retry.go:80-98 | every completed wait, the one after attempt k, is the scheduled delay of attempt k, jittered when jitter is on |
| Retrying.ScheduleBounded | scanner/utils/retry.go:94-98 | every scheduled delay is non-negative, and after the first never above MaxDelay |
| Retrying.ExponentialBackoff | scanner/utils/retry.go:145-151 | definition: base·2^attempt capped at maxDelay, 0 for a negative attempt; related to the loop by ScheduleIsExponential |
| Retrying.ScheduleIsExponential | scanner/utils/retry.go:95-98 | with factor 2 the loop's delay is ExponentialBackoff of the attempt |
| Retrying.ExponentialDoubles | scanner/utils/retry.go:145-151 | each ExponentialBackoff step doubles the previous delay until MaxDelay caps it |
| Retrying.DoublingStep | scanner/utils/retry.go:95-98 | with factor 2 the next delay is twice the last, capped at MaxDelay |
| Retrying.Pow2Monotone | scanner/utils/retry.go:146 | the power of two in ExponentialBackoff grows with the attempt |
| Retrying.NewLinearRetryPolicy | scanner/utils/retry.go:170-177 | definition: retry everything, after base·(attempt + 1); stated by LinearPolicySteps |
| Retrying.NewExponentialRetryPolicy | scanner/utils/retry.go:180-187 | definition: retry everything, after ExponentialBackoff; stated by ExponentialPolicyMonotone |
| Retrying.LinearPolicySteps | scanner/utils/retry.go:170-177 | the linear policy always retries; its delay starts at baseDelay and grows by baseDelay per attempt |
| Retrying.ExponentialPolicyMonotone | scanner/utils/retry.go:180-187 | the exponential policy always retries; its delay never exceeds maxDelay and never shrinks with the attempt |
| Retrying.StateNamesDistinct | scanner/utils/retry.go:195 | the three state names "closed", "open" and "half-open" are distinct |
| Retrying.BreakerStep | scanner/utils/retry.go:208-233 | definition: one Execute call on the breaker value; its behaviour is BreakerStepBehaviour and BreakerStepKeepsInvariant |
| Retrying.BreakerStepKeepsInvariant | scanner/utils/retry.go:208-233 | between calls the breaker is never half-open, is open only with at least maxFailures failures, and is closed with none or fewer than maxFailures; every step keeps this |
| Retrying.BreakerStepBehaviour | scanner/utils/retry.go:208-233 | rejects without calling and without any change while open within the timeout; a success resets to closed with 0 failures; a failure counts, stamps the time and opens at maxFailures |
| Retrying.ClosedFailuresCount | scanner/utils/retry.go:219-226 | below maxFailures consecutive failures keep a closed breaker closed and are counted one by one |
| Retrying.BreakerOpensAfterMaxFailures | scanner/utils/retry.go:199-226 | a new breaker stays closed after maxFailures − 1 failures and opens at the maxFailures-th |
| Retrying.FailuresSplit | scanner/utils/retry.go:219-226 | n + 1 failures are n failures followed by one more step |
| Retrying.CircuitBreaker.constructor | scanner/utils/retry.go:199-205 | a new breaker is closed with 0 failures |
| Retrying.CircuitBreaker.Execute | scanner/utils/retry.go:208-233 | the new state, the error and whether fn ran are exactly one BreakerStep, and the invariant is kept |
| Retrying.CircuitBreaker.State | scanner/utils/retry.go:236-238 | returns the current state's name |
| ServiceDetection.WellKnownPort | scanner/portscan/service-detect.go:67-133 | the table's name for a listed port and "" for every other port; never "unknown", so a miss is always recognisable |
| ServiceDetection.UnnamedHttpPorts | scanner/portscan/service-detect.go:67-133 | of the HTTP-looking ports exactly 3000 and 5000 are missing from the well-known table |
| ServiceDetection.LooksLikeHTTP | scanner/portscan/service-detect.go:261-268 | definition: the ten HTTP-looking ports |
| ServiceDetection.KeepPrintable | scanner/portscan/service-detect.go:181-185 | only bytes 32–126, '\n', '\r' and '\t' are kept, and never more than there were |
| ServiceDetection.CleanBanner | scanner/portscan/service-detect.go:179-191 | the loop computes the kept bytes in order, truncated to 256 |
| ServiceDetection.KeepPrintableAppend | scanner/portscan/service-detect.go:181-185 | filtering distributes over concatenation, so kept bytes keep their input order |
| ServiceDetection.KeepPrintableOfPrintable | scanner/portscan/service-detect.go:181-185 | printable text is kept whole |
| ServiceDetection.CleanedSpec | scanner/portscan/service-detect.go:179-191 | a cleaned banner is printable, at most 256 bytes, a prefix of the kept bytes, and cleaning it again changes nothing |
| ServiceDetection.FoldIndexFrom | scanner/portscan/service-detect.go:321-328 | the least case-insensitive match position from i on, or -1 when there is none |
| ServiceDetection.FoldIndex | scanner/portscan/service-detect.go:321-328 | -1 iff there is no case-insensitive match; otherwise the least index where one starts |
| ServiceDetection.FindString | scanner/portscan/service-detect.go:321-328 | the index loop returns exactly the least match position, or -1 |
| ServiceDetection.IndexOf | scanner/portscan/service-detect.go:330-337 | -1 iff the byte is absent; otherwise its least index |
| ServiceDetection.FindChar | scanner/portscan/service-detect.go:330-337 | the loop returns exactly the least index of the byte, or -1 |
| ServiceDetection.Min | scanner/portscan/service-detect.go:314-319 | the smaller of the two |
| ServiceDetection.ServerLineEnd | scanner/portscan/service-detect.go:212-218 | the first '\r', else the first '\n', else min(rest, 100); never inside the 7-byte header name |
| ServiceDetection.ServerPrefixHasNoLineBreak | scanner/portscan/service-detect.go:211-212 | a matched "Server:" holds no line break, so the line end is at least 7 |
| ServiceDetection.EmptyServerHeaderPanics | scanner/portscan/service-detect.go:211-220 | an HTTP banner whose first "Server:" is followed at once by '\r' makes the slice bounds cross (end 7 < 8), so parseBanner panics |
| ServiceDetection.ParseBannerAsWrittenPanics | scanner/portscan/service-detect.go:208-220 | the banner "HTTP Server:\r\n" panics in parseBanner as written |
| ServiceDetection.ExampleServerIndex | scanner/portscan/service-detect.go:211 | in "HTTP Server:\r\n" the header is found at index 5 |
| ServiceDetection.ParseBannerAgrees | scanner/portscan/service-detect.go:194-258 | the guarded rules never panic on a non-empty banner and agree with the written ones wherever those do not panic |
| ServiceDetection.ParseBannerFirstRules | scanner/portscan/service-detect.go:197-222 | an "SSH-" banner is ssh with bytes 4..min(len,50) as version when it is longer than 10; otherwise an "HTTP"/"http" banner longer than 4 is http |
| ServiceDetection.ParseBannerFields | scanner/portscan/service-detect.go:194-258 | the name is one of the rules' names or ""; a version only comes with ssh, a banner copy only with ftp, a product only with http |
| ServiceDetection.ParseBannerSmtp | scanner/portscan/service-detect.go:242-257 | a "220" banner is never smtp because the ftp rule takes it; smtp only comes from a "250 " banner mentioning smtp or mail |
| ServiceDetection.ServerProductSpec | scanner/portscan/service-detect.go:211-220 | a non-empty product is the text after "Server:" and one separator byte at a matched header, and holds no '\r' |
| ServiceDetection.ParseBannerAsWritten | scanner/portscan/service-detect.go:194-258 | definition: parseBanner as written, None where its Server slice panics; exhibited by ParseBannerAsWrittenPanics |
| ServiceDetection.ParseBanner | scanner/portscan/service-detect.go:194-258 | definition: parseBanner with the Server product skipped when end ≤ 8; ParseBannerAgrees ties it to the written rules |
| ServiceDetection.ProbeHTTP | scanner/portscan/service-detect.go:271-311 | http iff the response starts with "HTTP" and is longer than 4; never a version or banner; otherwise the empty info |
| ServiceDetection.GrabbedBanner | scanner/portscan/service-detect.go:136-176 | definition: the cleaned bytes read, or "" when nothing was read; CleanedSpec states the cleaning |
| ServiceDetection.Detect | scanner/portscan/service-detect.go:31-64 | starts at "unknown", the table name overrides it and the parsed banner fields override that; the HTTP probe replaces the whole result only for HTTP ports still "unknown", which can only be 3000 or 5000 |
| PortScanning.EqualFoldBytes | scanner/portscan/scanner.go:264-282 | the byte loop returns exactly FoldEquals: equal lengths and equal bytes after mapping A–Z to a–z |
| PortScanning.ContainsIgnoreCase | scanner/portscan/scanner.go:254-261 | the window loop returns exactly whether some length-\|sub\| window fold-equals sub |
| PortScanning.FoldEqualsIsLowerEquality | scanner/portscan/scanner.go:264-282 | fold equality is false for different lengths and otherwise equality of the ASCII-lowered strings, in both directions |
| PortScanning.FoldOccursAtIsLower | scanner/portscan/scanner.go:255-258 | a window fold-matches iff the lowered sub occurs at that index of the lowered text |
| PortScanning.ContainsFoldIsLowerContains | scanner/portscan/scanner.go:254-261 | case-insensitive containment is containment of the lowered strings, in both directions |
| PortScanning.ContainsFoldEmpty | scanner/portscan/scanner.go:254-261 | every string contains the empty pattern |
| PortScanning.FirstMatch | scanner/portscan/scanner.go:244-250 | definition: the service of the first pattern in the order that the banner contains, or "unknown"; stated by FirstMatchFound |
| PortScanning.IdentifyFromBanner | scanner/portscan/scanner.go:230-251 | definition: FirstMatch over a map iteration order of the table; stated by IdentifyFromBannerSpec |
| PortScanning.FirstMatchFound | scanner/portscan/scanner.go:244-250 | walking the patterns in a given order gives "unknown" iff none occurs; otherwise the service of an occurring pattern |
| PortScanning.IdentifyFromBannerSpec | scanner/portscan/scanner.go:230-251 | for any iteration order of the table: "unknown" iff no pattern occurs case-insensitively, otherwise the service of some occurring pattern |
| PortScanning.WalkOrdersArePatternOrders | scanner/portscan/scanner.go:231-242 | the two example orders each enumerate the pattern table exactly once |
| PortScanning.ListedOrderFindsSsh | scanner/portscan/scanner.go:244-248 | in the listed order the banner "SSH HTTP" gives ssh |
| PortScanning.SwappedOrderFindsHttp | scanner/portscan/scanner.go:244-248 | with HTTP walked before SSH the same banner gives http |
| PortScanning.IdentifyDependsOnOrder | scanner/portscan/scanner.go:244 | the result depends on map iteration order: one banner, two valid orders, two services |
| PortScanning.DetectService | scanner/portscan/scanner.go:162-200 | definition: the port table, else the banner class; stated by DetectServiceSpec |
| PortScanning.DetectServiceSpec | scanner/portscan/scanner.go:162-200 | a listed port gives its table entry whatever the banner (no grab needed); otherwise "unknown" for an empty banner and the banner's classification for any other; never "" |
| PortScanning.FirstMatchNonEmpty | scanner/portscan/scanner.go:231-250 | no pattern maps to "", so the walk never returns "" |
| PortScanning.ScannerDefaults | scanner/portscan/scanner.go:40-49 | zero fields become 300 workers, timeout 3 and rate 1000; every other field is kept |
| PortScanning.ScannerDefaultsIdempotent | scanner/portscan/scanner.go:40-49 | applying the defaults twice is applying them once |
| PortScanning.Row | scanner/portscan/scanner.go:85-91 | one job per port of a host, in port order |
| PortScanning.Jobs | scanner/portscan/scanner.go:84-93 | definition: the rows of every target, in target order; stated by JobsProduct |
| PortScanning.JobsProduct | scanner/portscan/scanner.go:84-93 | the fed jobs are the host×port product: \|targets\|·\|ports\| jobs, and a job is fed iff its host is a target and its port a port |
| PortScanning.Feed | scanner/portscan/scanner.go:83-95 | the nested feed loop produces exactly the jobs of that product, target-major |
| PortScanning.Scan | scanner/portscan/scanner.go:64-112 | the collection loop keeps exactly the open results of the jobs, in job order |
| PortScanning.OpenResults | scanner/portscan/scanner.go:104-110 | definition: the results whose dial succeeded, in job order; stated by OpenResultsSpec |
| PortScanning.OpenResultsStep | scanner/portscan/scanner.go:105-109 | one more result is appended iff it is open |
| PortScanning.OpenResultsSpec | scanner/portscan/scanner.go:104-110 | a result is kept iff some job's dial succeeded, and it is that job's result |
| PortScanning.ScanSpec | scanner/portscan/scanner.go:64-159 | every kept result is open, carries a target host and a listed port that dialled, and has a service iff detection is on; every target×port that dials is kept |
| HttpProbing.ProberDefaults | scanner/http/prober.go:56-74 | zero fields become 100 workers, timeout 10, 5 redirects, 2 retries, rate 500 and the browser user agent; every other value (negative ones too) is kept |
| HttpProbing.ProberDefaultsSpec | scanner/http/prober.go:56-74 | after the defaults no field is zero, so Retries 0 cannot be requested, and applying them twice changes nothing |
| HttpProbing.CheckRedirect | scanner/http/prober.go:96-107 | without FollowRedirect the last response is kept; with it a redirect is followed iff fewer than MaxRedirects requests precede it, and refused otherwise |
| HttpProbing.RedirectChain | scanner/http/prober.go:96-107 | definition: the requests of one Do call as CheckRedirect allows them; stated by RedirectChainSpec |
| HttpProbing.RedirectChainSpec | scanner/http/prober.go:96-107 | without FollowRedirect one request is made and never fails; with it at most max(MaxRedirects, 1) requests are made and the chain fails exactly when the server asks for at least that many redirects |
| HttpProbing.RedirectChainFrom | scanner/http/prober.go:101-106 | from the via-th request on, the chain stops within the bound and fails iff the redirects run past it |
| HttpProbing.NormalizeURL | scanner/http/prober.go:190-202 | one or two candidate URLs |
| HttpProbing.NormalizeURLCases | scanner/http/prober.go:190-202 | the trimmed target alone when it starts with http:// or https://, otherwise ["https://t", "http://t"] in that order |
| HttpProbing.NormalizeURLFixpoint | scanner/http/prober.go:190-202 | every candidate has a scheme and normalises to itself |
| HttpProbing.TrimmedCandidate | scanner/http/prober.go:191-195 | a target with a scheme normalises to its trimmed text, which is itself normal |
| HttpProbing.SchemeCandidates | scanner/http/prober.go:197-201 | both scheme-prefixed candidates have a scheme and normalise to themselves |
| HttpProbing.SchemeCandidate | scanner/http/prober.go:193-194 | a scheme followed by text not ending in space is a fixed point |
| HttpProbing.RetrySleeps | scanner/http/prober.go:209-212 | one sleep before each retry and none before the first probe; the k-th is (k+1)×500ms |
| HttpProbing.Retried | scanner/http/prober.go:205-222 | definition: the retried probe of one URL; stated by RetriedSpec |
| HttpProbing.ProbeWithRetry | scanner/http/prober.go:205-222 | the attempt loop returns exactly the recursive retry semantics and sleeps the listed delays |
| HttpProbing.RetriedSpec | scanner/http/prober.go:205-222 | at most Retries + 1 probes; the first with StatusCode > 0 is returned at once; if none succeeds, all Retries + 1 are made and the last result is returned |
| HttpProbing.RetriedFromSpec | scanner/http/prober.go:208-221 | the same from any attempt on, given that no earlier probe succeeded |
| HttpProbing.FirstSuccess | scanner/http/prober.go:178-184 | a chosen result always succeeded |
| HttpProbing.FirstSuccessSpec | scanner/http/prober.go:178-184 | nothing iff no candidate's retried probe succeeds; otherwise the first candidate's result whose retried probe succeeds |
| HttpProbing.Worker | scanner/http/prober.go:166-187 | per target the loop emits exactly the first successful candidate's result, and nothing when all fail |
| HttpProbing.FirstSuccessStep | scanner/http/prober.go:178-183 | a success stops the walk; a failure moves to the next candidate |
| HttpProbing.Choices | scanner/http/prober.go:166-187 | one choice per target |
| HttpProbing.ChoicesAt | scanner/http/prober.go:175-184 | the i-th choice is the first success among the i-th target's candidates |
| HttpProbing.Probe | scanner/http/prober.go:117-163 | the collection keeps exactly the emitted results, target by target |
| HttpProbing.ProbeStep | scanner/http/prober.go:155-160 | one target adds its emitted result, if any, at the end |
| HttpProbing.ProbeSpec | scanner/http/prober.go:117-187 | at most one result per target; every result has StatusCode > 0 and is some target's first success; every target's first success is present |
| HttpProbing.ExtractTitle | scanner/http/prober.go:289-302 | no match gives ""; a trimmed title of at most 100 bytes is returned as is; a longer one becomes its first 100 bytes + "..." |
| HttpProbing.ExtractTitleIdempotent | scanner/http/prober.go:293-299 | post-processing an extracted title again changes nothing |
| HttpProbing.LongTitleStable | scanner/http/prober.go:296-298 | a truncated title stays as it is when processed again |
| HttpProbing.Get | scanner/http/prober.go:386 | definition: Header.Get for a canonical name: the value, or "" when absent; Go canonicalises "CF-Ray" to "Cf-Ray" |
| HttpProbing.TechnologyRules | scanner/http/prober.go:316-391 | the nineteen detection rules in source order |
| HttpProbing.DetectTechnologies | scanner/http/prober.go:305-394 | the technologies of the rules that fire, in first-firing order, each once (Cloudflare appears once when both Server and CF-Ray fire), and only those |
| HttpProbing.CfRayAloneIsCloudflare | scanner/http/prober.go:386-388 | a Cf-Ray header alone, with an empty body, gives exactly ["Cloudflare"] |
| HttpProbing.CloudflareListedOnce | scanner/http/prober.go:305-394 | a Server header naming cloudflare together with Cf-Ray fires both rules and lists Cloudflare exactly once |
| Crawling.Render | scanner/http/crawler.go:363 | the rendered base URL starts with its scheme and "://" |
| Crawling.Key | scanner/http/crawler.go:426 | definition: scheme + "://" + host + path of a parsed URL; KeyIgnoresQueryAndFragment |
| Crawling.KeyIgnoresQueryAndFragment | scanner/http/crawler.go:426 | the seen-set key keeps only scheme, host and path, so two URLs differing only in query or fragment are the same entry |
| Crawling.CrawlerDefaults | scanner/http/crawler.go:50-67 | each zero field takes its default (depth 3, 1000 URLs, 20 workers, timeout 10, rate 50, the ReconCrawler user agent); non-zero fields, the start URLs and the flags are kept |
| Crawling.CrawlerProber | scanner/http/crawler.go:69-76 | the crawler's prober follows at most 3 redirects and, after the prober's own defaults, uses the crawler's worker count when non-zero |
| Crawling.MarkSeen | scanner/http/crawler.go:417-433 | definition: one markSeen on the seen set; stated by MarkSeenSpec |
| Crawling.MarkSeenSpec | scanner/http/crawler.go:417-433 | the seen set only grows; a URL is new iff it parses and its key was absent; a parsed URL's key is added, an unparsable one changes nothing; the count grows by one exactly when new |
| Crawling.ResolveURL | scanner/http/crawler.go:381-405 | definition: resolveURL on an href and the page URL; stated by ResolveURLSpec |
| Crawling.ResolveURLSpec | scanner/http/crawler.go:381-405 | an empty, fragment-only, javascript:, mailto: or data: href (after trimming) yields ""; any non-empty result is an http:// or https:// URL |
| Crawling.IsSameHost | scanner/http/crawler.go:408-414 | definition: isSameHost; stated by SameHostSpec |
| Crawling.SameHostSpec | scanner/http/crawler.go:408-414 | a URL is on the host iff it parses and its host equals the host or ends with "." followed by it |
| Crawling.ClassifyURL | scanner/http/crawler.go:443-463 | definition: classifyURL; stated by ClassifyURLSpec |
| Crawling.ClassifyURLSpec | scanner/http/crawler.go:443-463 | each of the four kinds is characterised exactly by the ordered tests: /api/ or /graphql in the lowered URL, then .js, .css suffixes, then json and javascript in the content type, else page |
| Crawling.NonBlank | scanner/http/crawler.go:292-293 | a capture is kept exactly when it resolves to a non-empty link, and then as that link |
| Crawling.Kept | scanner/http/crawler.go:290-310 | filtering resolved captures never yields more links than captures |
| Crawling.KeptSpec | scanner/http/crawler.go:290-310 | every kept link is non-empty and resolved from some capture, and every capture that resolves to a non-empty link is kept |
| Crawling.KeptAppend | scanner/http/crawler.go:288-310 | filtering the href captures followed by the src captures is filtering each and concatenating |
| Crawling.ExtractLinks | scanner/http/crawler.go:284-313 | the links are the resolved non-empty href then src captures, first occurrences only, in order |
| Crawling.ExtractLinksSpec | scanner/http/crawler.go:284-313 | the extracted links have no duplicates, each is a non-empty resolution of some capture, every non-empty resolution appears, and the href links come first |
| Crawling.ExtractJSEndpoints | scanner/http/crawler.go:316-343 | the endpoints are the resolved non-empty captures of the six patterns in pattern order, first occurrences only |
| Crawling.FormOf | scanner/http/crawler.go:359-373 | a form keeps every input name, and its action is never empty when the page URL is not |
| Crawling.FormsOf | scanner/http/crawler.go:352-378 | one form per form match |
| Crawling.FormsOfSpec | scanner/http/crawler.go:359-373 | each form carries its match's input names and a non-empty action: the resolved action, or the page URL exactly when the action does not resolve |
| Crawling.ExtractForms | scanner/http/crawler.go:352-378 | the loop builds the forms of the matches in order |
| Crawling.QueueLinks | scanner/http/crawler.go:220-237 | definition: the link loop, which stops at MaxURLs, skips other hosts under SameHost and queues new links at depth + 1 while the channel has room; stated by QueueLinksSpec |
| Crawling.QueueLinksSpec | scanner/http/crawler.go:220-237 | queueing only appends jobs at depth+1 for the page's own links and never beyond the channel capacity; the seen set only grows, each new key comes from a link that passed the same-host filter, and it does not grow past MaxURLs |
| Crawling.QueueLinksTail | scanner/http/crawler.go:221-237 | the queueing facts for the first link and for the rest compose into the facts for the whole list |
| Crawling.Announce | scanner/http/crawler.go:242-252 | definition: the announcing loop, one result per item whose URL markSeen reports new; stated by AnnounceSpec |
| Crawling.AnnounceSpec | scanner/http/crawler.go:242-252 | announcing only appends results, at most one per item, each with the page's depth, the given source and kind; the seen set only grows |
| Crawling.AsItems | scanner/http/crawler.go:244-250 | each script endpoint becomes an item with that URL and no parameters |
| Crawling.DiscoverStages | scanner/http/crawler.go:216-268 | the discovery of a page is the queueing stage, then the script-endpoint stage when JSParse is set, then the form stage |
| Crawling.QueueStageSpec | scanner/http/crawler.go:220-237 | the queueing stage grows the seen set and the queue, leaves the results alone and queues only at the given depth |
| Crawling.AnnounceStageSpec | scanner/http/crawler.go:240-268 | an announcing stage grows the seen set and the results, leaves the queue alone and records only at the page's depth |
| Crawling.DiscoverSpec | scanner/http/crawler.go:216-268 | the extraction stages only grow the seen set, the queue and the results; queued jobs are one level deeper than the page and new results are at its depth |
| Crawling.CrawlStep | scanner/http/crawler.go:178-269 | definition: one crawlURL step on the crawler state; stated by CrawlStepSpec |
| Crawling.CrawlStepSpec | scanner/http/crawler.go:178-269 | a failed probe changes nothing; otherwise the page's own record comes first; state only grows; queued jobs are one deeper and results at the page's depth; a page at MaxDepth, non-HTML, failing the second probe or with an empty body queues and marks nothing |
| Crawling.DepthsCarry | scanner/http/crawler.go:185-268 | the page's record and the results of both announcing stages all carry the page's depth |
| Crawling.SeedSpec | scanner/http/crawler.go:112-117 | definition: the seeding loop as a fold of markSeen, queueing a start URL at depth 0 when new |
| Crawling.SeedSpecFacts | scanner/http/crawler.go:112-117 | seeding only grows the state, queues start URLs at depth 0, one per newly seen key, and leaves the key of every parsable start URL seen |
| Crawling.SeedStep | scanner/http/crawler.go:113-116 | a start URL is queued exactly when it parses and its key was seen neither before seeding nor for an earlier start URL |
| Crawling.Crawler.constructor | scanner/http/crawler.go:49-84 | a new crawler has the defaulted configuration, a job channel of ten slots per worker and empty seen set, queue and results |
| Crawling.Crawler.URLCount | scanner/http/crawler.go:436-440 | the URL count is the size of the seen set |
| Crawling.Crawler.MarkSeenURL | scanner/http/crawler.go:417-433 | updates the seen set as the specification of markSeen says and reports whether the URL was new; the count grows by one exactly then |
| Crawling.Crawler.Seed | scanner/http/crawler.go:112-117 | the loop ends in the state SeedSpec gives: start URLs at depth 0, one job per newly seen key |
| Crawling.Crawler.QueueLinksLoop | scanner/http/crawler.go:220-237 | the loop leaves the crawler in the state of the queueing stage |
| Crawling.Crawler.AnnounceLoop | scanner/http/crawler.go:242-268 | the loop leaves the crawler in the state of an announcing stage |
| Crawling.Crawler.CrawlURL | scanner/http/crawler.go:178-269 | crawling a page leaves the crawler in the state of one crawl step, whose properties are stated by its lemma |
| ResponseAnalysis.AllTechnologyRules | scanner/http/response-analyzer.go:130-224 | there are exactly 26 detection rules, listed in the order the source applies them |
| ResponseAnalysis.Missing | scanner/http/response-analyzer.go:363-397 | definition: the number of listed headers absent from the response; stated by MissingSpec |
| ResponseAnalysis.DetectAllTechnologies | scanner/http/response-analyzer.go:117-227 | the technologies are the names of the rules that fire, first occurrence only, so each fired name appears exactly once and no other name appears |
| ResponseAnalysis.MissingSpec | scanner/http/response-analyzer.go:363-397 | the missing count is at most the number of headers checked, is zero iff all of them are present and is maximal iff none is |
| ResponseAnalysis.MissingIgnores | scanner/http/response-analyzer.go:363-397 | setting a header outside the checked list does not change the missing count |
| ResponseAnalysis.MissingCounted | scanner/http/response-analyzer.go:365-387 | the missing count is one for each absent header among CSP, HSTS, X-Frame-Options and X-Content-Type-Options |
| ResponseAnalysis.AnalyzeSecurityHeaders | scanner/http/response-analyzer.go:361-399 | each of the six headers is copied when present and empty otherwise, and the missing count is that of the four counted headers |
| ResponseAnalysis.MissingCountRange | scanner/http/response-analyzer.go:389-397 | the count lies in 0..4, is zero iff the four counted headers are present, and X-Xss-Protection and CORS never affect it |
| ResponseAnalysis.Captured | scanner/http/response-analyzer.go:243-249 | taking the first groups never yields more values than matches |
| ResponseAnalysis.CapturedSpec | scanner/http/response-analyzer.go:243-249 | every captured value is the first group of some match, and every match with a group contributes its value |
| ResponseAnalysis.CapturedNone | scanner/http/response-analyzer.go:238 | matches without a group contribute nothing |
| ResponseAnalysis.ExtractEndpoints | scanner/http/response-analyzer.go:230-253 | the endpoints are the first groups of the matches of the six patterns, in pattern order, first occurrences only |
| ResponseAnalysis.EndpointsSpec | scanner/http/response-analyzer.go:230-253 | the endpoints have no duplicates and a value is an endpoint iff it is the first group of some match of some pattern |
| ResponseAnalysis.AbsoluteApiPatternSilent | scanner/http/response-analyzer.go:238 | the absolute-URL pattern has no group, so its matches never add an endpoint |
| ResponseAnalysis.ExtractParameters | scanner/http/response-analyzer.go:256-279 | the parameters are the input names then the URL parameter names, without duplicates, and every input name comes first in order |
| ResponseAnalysis.DetailsOf | scanner/http/response-analyzer.go:295-314 | a form's action is the action attribute or empty, its method the upper-cased method attribute or GET, its fields every input name |
| ResponseAnalysis.MethodUpperCase | scanner/http/response-analyzer.go:298-306 | a form's method never contains an ASCII lower-case letter |
| ResponseAnalysis.FormOf | scanner/http/response-analyzer.go:290-293 | a form match yields details exactly when it has both groups |
| ResponseAnalysis.FormDetailsOf | scanner/http/response-analyzer.go:282-318 | no more forms than form matches |
| ResponseAnalysis.FormDetailsOfSpec | scanner/http/response-analyzer.go:290-315 | when every match has both groups, there is one form per match, in order, each its details |
| ResponseAnalysis.ExtractFormDetails | scanner/http/response-analyzer.go:282-318 | the loop builds the forms of the matches |
| ResponseAnalysis.CommentOf | scanner/http/response-analyzer.go:327-331 | a kept HTML comment is the trimmed group, of length strictly between 5 and 500 |
| ResponseAnalysis.HtmlComments | scanner/http/response-analyzer.go:326-333 | at most one comment per match |
| ResponseAnalysis.HtmlCommentsSpec | scanner/http/response-analyzer.go:326-333 | every kept comment has length in (5, 500) and comes from a match, and every match whose trimmed group has such a length is kept |
| ResponseAnalysis.ExtractComments | scanner/http/response-analyzer.go:321-342 | the comments are the kept HTML comments of the first 20 matches followed by the first 10 keyword comments, at most 30 in all |
| ResponseAnalysis.ExtractEmails | scanner/http/response-analyzer.go:345-358 | the emails are the first 20 matches without duplicates, so at most 20, and an address appears iff it is among those 20 |
| ResponseAnalysis.Entries | scanner/http/response-analyzer.go:420-424 | no more entries than matches |
| ResponseAnalysis.EntriesSpec | scanner/http/response-analyzer.go:420-424 | every entry is the category name, ": " and a match shorter than 200 |
| ResponseAnalysis.Blocks | scanner/http/response-analyzer.go:418-425 | one block per category, in the given order, each the entries of its first three matches |
| ResponseAnalysis.FindInteresting | scanner/http/response-analyzer.go:402-428 | the findings are the concatenated blocks of the categories in the given order |
| ResponseAnalysis.InterestingSpec | scanner/http/response-analyzer.go:402-428 | each category contributes at most three entries, each a short match of that category, so ten categories give at most 30 |
| ResponseAnalysis.ExtractDescription | scanner/http/response-analyzer.go:99-114 | the trimmed content of the first meta form, else of the alternate form, else empty |
| ResponseAnalysis.Analyze | scanner/http/response-analyzer.go:53-90 | every field of the result is the corresponding extraction of the body and headers, with the hash supplied |
| DnsResolution.NewResolver | scanner/subdomain/resolver.go:33-62 | after construction the server list is non-empty and timeout, retries and workers are non-zero; every value given non-empty or non-zero is kept |
| DnsResolution.NewResolverDefaults | scanner/subdomain/resolver.go:34-45 | an all-zero configuration gets the three public resolvers, 5 s, 2 retries and 100 workers, and constructing from a constructed configuration changes nothing |
| DnsResolution.ServerFor | scanner/subdomain/resolver.go:74-76 | every worker is pinned to one of the configured servers |
| DnsResolution.ServerPinning | scanner/subdomain/resolver.go:74-76 | worker i below the server count gets server i, and workers a server count apart share a server |
| DnsResolution.Outcome | scanner/subdomain/resolver.go:128-161 | the result names the subdomain; an alive result has addresses and no error, a dead one no addresses |
| DnsResolution.CallsFrom | scanner/subdomain/resolver.go:128-150 | the lookups from attempt a on never number more than Retries+1 in all |
| DnsResolution.Resolved | scanner/subdomain/resolver.go:125-162 | definition: the retried lookup of one subdomain; stated by ResolvedSpec |
| DnsResolution.OutcomeSpec | scanner/subdomain/resolver.go:128-161 | from attempt a on: alive iff some remaining attempt answers, and then with the first answering attempt's addresses after only failures; otherwise every attempt was made and failed and the error is the last attempt's |
| DnsResolution.ResolvedSpec | scanner/subdomain/resolver.go:125-162 | at most Retries+1 lookups; alive iff some attempt returns addresses without error, with the addresses of the first that does; otherwise no addresses and the last attempt's error text ("" for a nil error) |
| DnsResolution.Backoff | scanner/subdomain/resolver.go:146-149 | the i-th wait is (i+1)*100 ms |
| DnsResolution.ResolveWithRetry | scanner/subdomain/resolver.go:125-162 | the loop returns the outcome stated for the retried lookup and sleeps the linear backoff once between each two lookups made |
| DnsResolution.AliveResults | scanner/subdomain/resolver.go:100-106 | no more results than subdomains |
| DnsResolution.JobOutcome | scanner/subdomain/resolver.go:112-122 | definition: a worker resolving one job with its pinned server; used by AliveResultsSpec |
| DnsResolution.AliveResultsSpec | scanner/subdomain/resolver.go:65-109 | every returned result is alive, every alive outcome of a job is returned, and every returned result is the outcome of some job with its worker's pinned server |
| DnsResolution.AliveResultsStep | scanner/subdomain/resolver.go:101-106 | collecting one more outcome appends it exactly when alive |
| DnsResolution.Resolve | scanner/subdomain/resolver.go:65-109 | the collected results are the alive outcomes of the jobs, in job order |
| DnsResolution.FilterAlive | scanner/subdomain/resolver.go:165-176 | the names are those of the alive outcomes |
| DnsResolution.FilterAliveSpec | scanner/subdomain/resolver.go:165-176 | one name per alive result, in order, each that result's subdomain |
| SubdomainEnumeration.Names | scanner/subdomain/enumerator.go:28-33 | the names of a result list, one per result in order |
| SubdomainEnumeration.FirstWins | scanner/subdomain/enumerator.go:297-311 | a run of addResult calls emits at most one record per call |
| SubdomainEnumeration.FirstWinsNames | scanner/subdomain/enumerator.go:297-311 | the emitted names have no duplicates, none was seen before, each comes from some call, and every call for an unseen name leads to that name being emitted |
| SubdomainEnumeration.FirstWinsFirst | scanner/subdomain/enumerator.go:301-310 | each emitted record is that of the first call for its name, source and timestamp included |
| SubdomainEnumeration.Scanner.constructor | scanner/subdomain/enumerator.go:45-53 | a new scanner keeps the configuration and has seen and emitted nothing |
| SubdomainEnumeration.Scanner.AddResult | scanner/subdomain/enumerator.go:297-311 | the name becomes seen; a record with no addresses is emitted exactly when it was not seen before; the seen set and the emitted names stay in step without repetition |
| SubdomainEnumeration.Scanner.AddAll | scanner/subdomain/enumerator.go:112-114 | a sequence of addResult calls emits the first-wins records of the events and marks every name seen |
| SubdomainEnumeration.EventNamesSpec | scanner/subdomain/enumerator.go:297-311 | a name is marked by a run iff some call carries it |
| SubdomainEnumeration.CrtLine | scanner/subdomain/enumerator.go:153-159 | a crt.sh line gives a name iff, after removing one leading "*." and trimming, it is non-empty and ends with the domain, and then gives exactly that |
| SubdomainEnumeration.CrtName | scanner/subdomain/enumerator.go:153-159 | the per-line filter is that rule for every line |
| SubdomainEnumeration.EntryLines | scanner/subdomain/enumerator.go:151-152 | one list of newline-split names per certificate entry |
| SubdomainEnumeration.QueryCrtSh | scanner/subdomain/enumerator.go:121-164 | the loop returns the crt.sh names: none after a failed request, read or decode, otherwise the filtered lines, first occurrences only |
| SubdomainEnumeration.CrtShNames | scanner/subdomain/enumerator.go:121-163 | definition: the crt.sh names of a decoded response, empty on failure; stated by CrtShSpec |
| SubdomainEnumeration.CrtShSpec | scanner/subdomain/enumerator.go:148-163 | the crt.sh names have no duplicates, and a name is returned iff some line of some entry gives it |
| SubdomainEnumeration.WildcardBehindSpace | scanner/subdomain/enumerator.go:154-155 | a wildcard behind a leading blank is kept with its "*." because trimming happens after the prefix removal |
| SubdomainEnumeration.OneWildcardStripped | scanner/subdomain/enumerator.go:154 | only one "*." is removed, so "*.*.x" yields "*.x" |
| SubdomainEnumeration.SuffixFilterIsPlain | scanner/subdomain/enumerator.go:156 | the domain filter is a plain suffix test, so a name that merely ends with the domain's letters is accepted |
| SubdomainEnumeration.FirstField | scanner/subdomain/enumerator.go:190-192 | the first comma field of a line, trimmed, so neither end is blank |
| SubdomainEnumeration.HostLine | scanner/subdomain/enumerator.go:190-195 | a hackertarget line gives a name iff its trimmed first field is non-empty and ends with the domain, and then gives that field |
| SubdomainEnumeration.HostField | scanner/subdomain/enumerator.go:189-197 | the per-line filter is that rule for every line |
| SubdomainEnumeration.QueryHackerTarget | scanner/subdomain/enumerator.go:167-200 | the loop returns the hackertarget names: none after a failed request or read, otherwise the qualifying first fields in line order |
| SubdomainEnumeration.HackerTargetNames | scanner/subdomain/enumerator.go:167-199 | definition: the hackertarget names of a response body; stated by HackerTargetSpec |
| SubdomainEnumeration.HackerTargetSpec | scanner/subdomain/enumerator.go:186-199 | a name is returned iff it is non-empty, ends with the domain and is the first field of some line |
| SubdomainEnumeration.HackerTargetKeepsDuplicates | scanner/subdomain/enumerator.go:189-197 | hackertarget names are not de-duplicated: a repeated qualifying line is returned again |
| SubdomainEnumeration.ThreatCrowdNames | scanner/subdomain/enumerator.go:203-231 | the decoded subdomain list unchanged, or nothing after a failed request, read or decode |
| SubdomainEnumeration.ListEntry | scanner/subdomain/enumerator.go:261-262 | a line is a word iff it is non-blank after trimming and does not start with "#", and the word is the trimmed line |
| SubdomainEnumeration.FeedWords | scanner/subdomain/enumerator.go:235-267 | the loop feeds the words of the wordlist: none when it cannot be opened, else the qualifying lines |
| SubdomainEnumeration.Words | scanner/subdomain/enumerator.go:234-266 | definition: the qualifying lines of the wordlist, none when it does not open; stated by WordsSpec |
| SubdomainEnumeration.WordsSpec | scanner/subdomain/enumerator.go:255-266 | a word is fed iff it is non-empty, does not start with "#" and is the trimmed form of some line |
| SubdomainEnumeration.HitOf | scanner/subdomain/enumerator.go:287-291 | a word is a hit iff the lookup of word + "." + domain returns addresses without error, and the hit is that name |
| SubdomainEnumeration.Hit | scanner/subdomain/enumerator.go:282-293 | the per-word filter is that rule for every word |
| SubdomainEnumeration.BruteforceHits | scanner/subdomain/enumerator.go:273-294 | the hits of the fed words, in order |
| SubdomainEnumeration.HitsSpec | scanner/subdomain/enumerator.go:287-291 | a name is a hit iff it is some word + "." + domain whose lookup answers |
| SubdomainEnumeration.Stamp | scanner/subdomain/enumerator.go:306-310 | each name gets one call with the source and the clock reading at its position |
| SubdomainEnumeration.StampSource | scanner/subdomain/enumerator.go:113 | every call of a stage carries that stage's source name |
| SubdomainEnumeration.ModeSelection | scanner/subdomain/enumerator.go:64-79 | with neither mode nothing is emitted; without Passive every call is from the bruteforce; without Bruteforce and a wordlist none is |
| SubdomainEnumeration.RunEvents | scanner/subdomain/enumerator.go:56-93 | definition: the addResult calls of a run, passive stages then bruteforce hits; used by Enumerate |
| SubdomainEnumeration.PassiveSources | scanner/subdomain/enumerator.go:97-104 | no passive call claims the bruteforce source |
| SubdomainEnumeration.Enumerate | scanner/subdomain/enumerator.go:56-93 | the records returned are the first-wins records of the run's calls, passive then bruteforce, and they are appended to the scanner's results |
| Cli.DigitRun | scanner/main.go:230 | the scan position moves over a maximal run of decimal digits |
| Cli.SkipBlanks | scanner/main.go:230 | the scan position moves over blanks other than newline, stopping at the first non-blank or newline |
| Cli.DecimalValue | scanner/main.go:230 | the value of a digit string is non-negative |
| Cli.ScanInt | scanner/main.go:229-237 | a scanned integer fits in int64 and ends just after a digit that is not followed by another digit |
| Cli.ScanRange | scanner/main.go:229-230 | when the first number does not scan both bounds stay 0; otherwise the start is the scanned number |
| Cli.ScanSingle | scanner/main.go:236-237 | a single port is the scanned number, or 0 when none scans |
| Cli.Interval | scanner/main.go:231-233 | the range loop's ports are start, start+1, ..., end, empty when end < start |
| Cli.PartPorts | scanner/main.go:225-242 | definition: the ports of one trimmed part, a range or a positive single port |
| Cli.PortsOf | scanner/main.go:220-245 | definition: the ports of the parts in order; ParsePorts computes it, round trips in SinglePortRoundTrip and RangeRoundTrip |
| Cli.PartsPortsStep | scanner/main.go:224-242 | handling one more part appends that part's ports |
| Cli.AppendRange | scanner/main.go:231-233 | the range loop appends exactly the interval from start to end |
| Cli.ParsePorts | scanner/main.go:220-245 | the loop returns the ports of the specification, part by part |
| Cli.PartsPortsAppend | scanner/main.go:223-242 | the ports of two part lists are the ports of each, concatenated |
| Cli.PortsOfJoin | scanner/main.go:223-242 | joining two specifications with a comma concatenates their ports when the first has no comma |
| Cli.NatDecimal | scanner/main.go:230 | the decimal form of a natural number is a non-empty digit string whose value is that number |
| Cli.DigitRunOver | scanner/main.go:230 | a digit run ends exactly at the first non-digit |
| Cli.ScanDecimal | scanner/main.go:229-237 | scanning any int64 written in decimal, followed by a non-digit or nothing, gives that number and stops right after it |
| Cli.ScanDecimalAlone | scanner/main.go:237 | the decimal form of any int64 scans back to it |
| Cli.SinglePortRoundTrip | scanner/main.go:236-240 | a positive port written alone is parsed back as exactly that port |
| Cli.RangeRoundTrip | scanner/main.go:227-233 | "a-b" for non-negative a and b gives the ports a..b, and nothing when a > b |
| Cli.NegativePortIsARange | scanner/main.go:227-233 | a negative number contains '-', so "-n" is read as the range from -n to 0 |
| Cli.MalformedRangeGivesZero | scanner/main.go:227-233 | a part with '-' whose first number does not scan gives the single port 0 |
| Cli.ParseTargets | scanner/main.go:199-217 | the loop returns the targets: the argument itself without a file or when the read fails, else the file's qualifying lines |
| Cli.Targets | scanner/main.go:199-217 | definition: the argument, or the qualifying lines of a readable file; stated by TargetsSpec |
| Cli.TargetsSpec | scanner/main.go:199-217 | without a readable file the target list is the argument alone; with one, a target is listed iff it is non-empty, not a "#" comment and the trimmed form of a line of the trimmed file |
| Cli.BlankFileGivesNoTargets | scanner/main.go:206-214 | a readable file holding only blanks gives no targets at all, not even the argument |
| Cli.FormatAsText | scanner/main.go:278-302 | the loop builds the text form of the records |
| Cli.Text | scanner/main.go:278-295 | definition: the newline-joined text lines, or the JSON of other records; stated by TextLinesSpec |
| Cli.TextLinesSpec | scanner/main.go:281-295 | one line per record: the subdomain, "host:port service", or the URL |
| Cli.TextSplitsIntoLines | scanner/main.go:301 | when no line holds a newline, splitting the text on newlines gives back the lines |
| Cli.PortLineFields | scanner/main.go:290 | a port line splits back at ':' into its host, and the number after the colon scans back to the port |
| Cli.OutputOf | scanner/main.go:248-275 | text output never fails; JSON output fails exactly when encoding fails; the records go to the named file, or to standard output with a trailing newline |
| Cli.UnknownFormatIsJson | scanner/main.go:252-259 | any format other than txt is handled as JSON |

## Left out

- `scanner/utils/concurrent.go` (worker pool, semaphore, wait group, fan-out, parallel map) is not part of this model: it is goroutine and channel machinery with no sequential rule of its own.
- Goroutines, channels, `sync.WaitGroup` and mutexes in `Scan`, `Probe`, `Crawl`, `Resolve` and `Enumerate`: each is modelled by its sequential meaning, jobs handled one after the other, and `markSeen`, `addResult` and `getLimiter` as atomic steps. The order in which concurrent workers deliver results is therefore fixed to job order.
- The crawler's driver `Crawl` (the seeding goroutine, the workers, and the watchdog that closes the job channel after 5 s, on timeout or on reaching MaxURLs) and `worker`'s MaxURLs check: only `Seed` and one `crawlURL` step are modelled, not the breadth-first run over the queue.
- Context cancellation and the 30-minute, per-request and per-lookup timeouts are not modelled, except in `RetryWithBackoff`, where cancellation before an attempt and during a wait is an input.
- Network I/O: DNS lookups, TCP dials, banner reads and writes, HTTP requests (`Do`, `Get`, `fetchBody` and its 1 MB read limit) and the crt.sh, hackertarget and threatcrowd calls are oracles. A failed request, read or JSON decode is an absent value (`None`).
- Wall-clock time and sleeping (`time.Now`, `time.Sleep`, `time.Since`, the polling loop of `RateLimiter.Wait`): the current time is a parameter and the sleeps of a retry loop are returned as a list of waits. The RFC 3339 timestamps are strings from a clock oracle.
- Randomness: the jitter draws of `RetryWithBackoff` and `JitterDuration` are inputs in [0, 1); only the ±30% bound follows from them.
- IEEE floating point: token counts and rates are real numbers, and the float-to-`Duration` conversion is truncation of a non-negative real.
- RateLimiting.RateLimiter.Reserve: the wait is the exact real (1 − tokens)/rate in seconds; Go converts it to a `time.Duration`, truncating it to whole nanoseconds (rate-limiter.go:131), so the exact-deficit property of ReserveRefillAfterWait holds for the real wait, not for the truncated one.
- RateLimiting.RateLimiter.Reserve: requires a positive rate. With rate 0 (possible after `SetRate(0)`) Go divides by zero and converts an infinite float to a duration; that case is not modelled.
- Regular expressions: every `FindAllStringSubmatch`, `FindStringSubmatch` or `FindAllString` result is an input (a list of submatch lists). What each pattern would match on a body is not modelled; only what the code does with the matches, and the fact that the absolute-URL endpoint pattern has no group.
- `url.Parse` and `ResolveReference` are oracles, and `URL.String()` is rendered for the URLs the crawler builds.
- MD5 `hashBody` and `json.Marshal`, `MarshalIndent` and `Unmarshal` are not modelled: the hash is a parameter, and JSON encodings are strings or an absent value.
- Unicode: `strings.ToLower`, `ToUpper`, `TrimSpace` and `EqualFold`-style comparisons are ASCII only; multi-byte characters are never folded.
- `fmt.Sscanf` is modelled only as far as `parsePorts` uses it, with `%d` and `%d-%d`: blanks other than newline are skipped, then an optional sign, decimal digits within the int64 range and the literal '-'. Its error values are not modelled; a failed verb leaves its variables at 0, as in the source.
- Retrying.ExponentialBackoff: the product baseDelay·2^attempt is an unbounded integer. Go multiplies `time.Duration` values in int64 (retry.go:146), which wraps once the product passes 2^63 − 1 (from attempt 37 with a 100 ms base), so Go can return a negative delay where the model returns maxDelay; the power itself is a float64 in Go and is exact only up to 2^1023.
- Retrying.NewLinearRetryPolicy: baseDelay·(attempt + 1) is an unbounded integer; Go's int64 product (retry.go:174) wraps for large attempts.
- Retrying.NewExponentialRetryPolicy: inherits the unbounded product of ExponentialBackoff.
- Retrying.ScheduleIsExponential: the equality with ExponentialBackoff holds in the model for every attempt; in Go it holds only while baseDelay·2^attempt fits in int64, because the schedule is capped before it can overflow and ExponentialBackoff is not.
- Retrying.ExponentialDoubles: doubling until the cap is a property of the unbounded product; Go's product wraps once it passes 2^63 − 1.
- Retrying.LinearPolicySteps: growth by baseDelay per attempt holds for unbounded integers; Go's int64 product wraps for large attempts.
- Retrying.ExponentialPolicyMonotone: "never shrinks" and "never above maxDelay" hold for unbounded integers; in Go the delay turns negative once baseDelay·2^attempt passes 2^63 − 1, after which later attempts can wait less.
- ServiceDetection.Detect: uses the guarded ParseBanner, the corrected half of the Findings row. On a grabbed banner whose "Server:" is followed at once by '\r' or '\n' (or ends the banner) the source's Detect reaches the panicking slice of parseBanner, while the model returns the http info without a product.
- Cli.AppendRange: the range loop in `parsePorts` counts with a Go `int`, so for an end of 9223372036854775807 the counter would wrap around and the loop would not stop; the model uses unbounded integers and stops.
- File and process I/O in `main.go` (`os.Stat`, `ReadFile`, `WriteFile`, `Open`, flag parsing, `os.Exit`, printing): a target path is described by what reading it gives, and a failed write of the output file is not modelled.
- The wordlist feed uses `bufio.Scanner`, which stops at a line longer than 64 KB; the model reads every line. A trailing '\r' that `ScanLines` would strip is trimmed by `TrimSpace` in both.
- A negative `Workers` value makes `make(chan, n)` panic in `Scan`, `Probe`, `Resolve` and the bruteforce feed, and zero workers after defaulting can only happen in the enumerator: `DnsResolution.Resolve`, `DnsResolution.FilterAlive` and `SubdomainEnumeration.Enumerate` require a positive worker count where a feed needs one.
- The IP addresses of an enumerated subdomain are never filled in by the source, so `SubdomainEnumeration.Result.ips` is always empty.
- ServiceDetection.WellKnownPort: its contract states only the shape of the answer (a table name, or "" off the table); the table's 60-odd entries are literal data, copied entry by entry rather than stated as a property.
- PortScanning.IdentifyFromBanner and ResponseAnalysis.FindInteresting: Go map iteration order is a parameter (a duplicate-free ordering of the table's keys), so the contracts state membership and counts, not which entry wins.

## Findings

| source | as written | input that shows it | evidently intended | confidence | as-written member | corrected member |
|---|---|---|---|---|---|---|
| scanner/portscan/service-detect.go:211-220 | `parseBanner` slices the text after "Server:" as `banner[idx+8 : idx+end]` without checking `end`; when the header is followed at once by '\r' or '\n', `end` is 7, the bounds cross and the slice panics | the banner "HTTP Server:\r\n" | skip the product when `end <= 8`, as `probeHTTP` does for the same header (service-detect.go:299-306) | not executed | ServiceDetection.ParseBannerAsWrittenPanics | ServiceDetection.ParseBannerAgrees |

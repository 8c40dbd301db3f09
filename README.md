# GoToSocial outbound HTTP client and paging boundaries, in Dafny

This project models two parts of GoToSocial.

**The outbound HTTP client** (`internal/httpclient/client.go`):

- `New` fills in the configuration defaults. An unset per-host connection limit becomes 20 per processor. An unset idle-connection limit becomes ten times the per-host limit. An unset body limit becomes 512 MiB.
- `do` puts every response body behind a limit reader. A declared length above the limit is refused with `ErrBodyTooLarge`.
- `DoSigned` runs the retry loop:
  - it makes at most five attempts;
  - each outcome is classified as success, retryable, or fatal (by sentinel, by message, or by DNS not-found);
  - a retryable outcome is followed by a backoff. The backoff comes from a `Retry-After` header (capped at 10 s) or else is exponential: 4, 8, 16, 32, 64 s;
  - fast-fail stops at the first retryable outcome;
  - a cancelled backoff returns the context's error;
  - every call that fails after request validation marks its host as bad, unless the caller had asked for fast-fail;
  - later calls to a bad host fail fast.

**Paging boundaries** (`internal/paging/boundary.go`): the five boundary constructors, `EitherMinID`, `Boundary.new` (here `With`) and `Boundary.Find`.

Layout:

- `wrappers.dfy`: `Option` and `Result`.
- `strconv.dfy`: Go's `strconv.ParseUint(s, 10, 32)` as the Retry-After parser uses it. The digits are read left to right. A value passing the 32-bit maximum gives that maximum at once, before any later character is looked at. Otherwise the first non-digit gives 0. The module also has a decimal printer that round-trips with the parser.
- `httpclient.dfy`: the client.
  - **Spec side.** The retry loop is specified by the recursive function `Run` over the five `Attempt`s that an environment produces. An environment holds the transport's results, the clock, whether the context ends during each backoff, and Go's HTTP-date parser.
  - **Code side.** `Client.DoSigned`, `Client.Retry` and `Client.AttemptOnce` are the imperative loop, proved equal to `Run`.
  - **Bad hosts.** The bad-hosts cache is the `badHosts` field of the `Client` class, which `DoSigned` updates.
  - **Ghost outputs.** The ghost outputs `end`, `attempts` and `backoffs` record how a call ended, how many round trips it made and which waits it chose.
- `paging.dfy`: `Boundary` and its operations; `Find` is a loop, as in Go.

Behaviour of the code worth noting:

- A `Retry-After` date in the past gives a backoff of 0, so the exponential backoff applies. It does not mean an immediate retry (`RetryAfterDate`, `ChosenBackoff`).
- `ErrInvalidNetwork` raised during an attempt is not in the list of fatal errors, so it is retried. Only `ValidateRequest`'s failure, which happens before the loop, is returned at once.
- `MaxOpenConnsPerHost` only feeds the idle-connection default. It is not handed to the transport (`Client.constructor`).
- The comment on `ErrBodyTooLarge` mentions 40MB, but the default limit in `New` is 512 MiB; the model uses 512 MiB.

## Model

| member | source | states |
|---|---|---|
| HttpClient.Mul64 | internal/httpclient/client.go:127 | Go's int64 product: exact whenever the product fits in 64 bits (it wraps otherwise) |
| HttpClient.Defaulted | internal/httpclient/client.go:124-138 | each rule on its own field: an unset per-host limit becomes 20 × procs, an unset idle limit 10 × the per-host limit after defaulting (so 70 for a given 7), an unset body limit 512 MiB; each product is exact when it fits in 64 bits |
| HttpClient.DefaultsKeepGiven | internal/httpclient/client.go:124-138 | positive limits are kept as given, and no field other than the three limits is touched |
| HttpClient.DefaultsSettle | internal/httpclient/client.go:124-138 | with at least one processor and no overflow, all three limits end up positive, and defaulting again changes nothing |
| HttpClient.DefaultsFromProcs | internal/httpclient/client.go:124-138 | with all three limits unset: 20 per-host connections per processor, 200 idle connections per processor (computed after the per-host default), 512 MiB of body |
| HttpClient.Client.constructor | internal/httpclient/client.go:115-187 | the body limit, the timeout and the transport settings are the defaulted configuration's; the per-host limit is not passed on; the bad-hosts set starts empty |
| HttpClient.DoLimited | internal/httpclient/client.go:333-372 | transport errors pass through; body-too-large exactly when the declared length exceeds the limit; otherwise the same response, read through a limit of the declared length when it is known and `bodyMax` when it is not |
| HttpClient.DoLimitedContract | internal/httpclient/client.go:341-363 | the readable body is the first min(bytes sent, read limit) bytes of what was sent, so never more than `bodyMax` nor than a known declared length, and all of it when it fits |
| HttpClient.ContainsIff | internal/httpclient/client.go:290-293 | `strings.Contains` as modelled finds the substring exactly when it occurs at some position |
| HttpClient.Classify | internal/httpclient/client.go:244-302 | a response is classified success or retryable status and an error never is; success exactly for a status below 500 other than 429 |
| HttpClient.BodyTooLargeIsFatal | internal/httpclient/client.go:282-290 | a body declared too large is classified fatal and never retried |
| HttpClient.ClassifyPrecedence | internal/httpclient/client.go:282-302 | a fatal sentinel wins over message and DNS tests; DNS not-found applies exactly when no earlier test matched; an error is retried exactly when none of the three tests match |
| HttpClient.ExpBackoff | internal/httpclient/client.go:309-313 | the exponential backoff is at least 4 s, and exceeds the 10 s Retry-After cap exactly from the third attempt on |
| HttpClient.ExpBackoffSchedule | internal/httpclient/client.go:309-313 | the exponential backoff is 4, 8, 16, 32 and 64 s over the five attempts, doubling each time |
| HttpClient.RetryAfterBackoff | internal/httpclient/client.go:258-276 | a Retry-After backoff is between 0 and 10 s, and 0 when the header is absent |
| HttpClient.RetryAfterSeconds | internal/httpclient/client.go:264-266 | a header of u seconds (1 ≤ u < 2^32) gives u seconds, capped at 10 s |
| HttpClient.RetryAfterHugeSeconds | internal/httpclient/client.go:264-276 | a decimal above the 32-bit range parses as the maximum and gives the 10 s cap |
| HttpClient.RetryAfterDate | internal/httpclient/client.go:267-276 | a header that is not a non-zero number: a date not before now gives the time until it, capped at 10 s; a past date gives 0; an unparseable date (Go's zero time) gives 0 |
| HttpClient.ChosenBackoff | internal/httpclient/client.go:258-313 | the backoff after a retryable attempt is positive; a non-zero Retry-After backoff is the one used; an error outcome, or a header that asks for no backoff (absent, zero, unparseable or a past date), gets the exponential one |
| HttpClient.AttemptsValid | internal/httpclient/client.go:243-313 | every attempt classified success carries a response, every fatal one an error, and every backoff is positive |
| HttpClient.Stop | internal/httpclient/client.go:250-320 | an attempt not followed by another ends the call with one round trip and never as exhausted; a response exactly on success; an error exactly otherwise; a backoff logged only when it was cancelled |
| HttpClient.StopOutcome | internal/httpclient/client.go:250-320 | how the last attempt ends the call: success returns its response; a fatal outcome returns its error, marked not-found for DNS not-found; under fast-fail a retryable one returns its error with " (fast fail)" appended; otherwise the context's error |
| HttpClient.Run | internal/httpclient/client.go:238-329 | at most five round trips, at least one; a response exactly when the call succeeded and an error exactly when it did not |
| HttpClient.RunAttempts | internal/httpclient/client.go:238-329 | one logged backoff per retried attempt, the cancelled and the last one included; running out means five round trips and the "transport reached max retries" error with no response |
| HttpClient.RunRetried | internal/httpclient/client.go:238-324 | every attempt but the last was retryable, with fast-fail off and its backoff run out, and the last one was not |
| HttpClient.RunBackoffs | internal/httpclient/client.go:309-324 | the logged backoffs are, in order, the backoffs chosen after each attempt |
| HttpClient.RunLastAttempt | internal/httpclient/client.go:238-329 | a call that does not run out returns what its last attempt's outcome gives |
| HttpClient.RunExhaustedIff | internal/httpclient/client.go:238-329 | a call runs out of retries exactly when every attempt is retryable, fast-fail is off and no backoff is cancelled |
| HttpClient.FastFailOneAttempt | internal/httpclient/client.go:304-307 | under fast-fail exactly one round trip is made and no backoff is taken |
| HttpClient.FatalEndsCall | internal/httpclient/client.go:282-301 | a fatal outcome ends the call on that attempt, with no response and no backoff |
| HttpClient.SuccessIsTransportResponse | internal/httpclient/client.go:244-253 | an attempt classified success returns the response the transport received; its status is below 500 and not 429, and its declared length is within the limit |
| HttpClient.FiveServerErrors | internal/httpclient/client.go:238-329 | five 5xx or 429 responses without Retry-After: five round trips, backoffs of 4, 8, 16, 32 and 64 s, then the max-retries error |
| HttpClient.RetryAfterSecondsUsed | internal/httpclient/client.go:258-276 | a 5xx or 429 on any attempt with a Retry-After of u seconds (1 ≤ u < 2^32) is retryable and followed by min(u s, 10 s), not the exponential backoff |
| HttpClient.RetryAfterTwoSeconds | internal/httpclient/client.go:258-276 | a 503 with `Retry-After: 2` is followed by a 2 s backoff, not the exponential one |
| HttpClient.Client.AttemptOnce | internal/httpclient/client.go:239-320 | one attempt of the loop ends the call exactly when the specification stops there, with the outcome the specification gives; otherwise it yields the specified backoff |
| HttpClient.Client.Retry | internal/httpclient/client.go:238-329 | the loop returns exactly what `Run` specifies, including the attempt count and the backoff log |
| HttpClient.Client.DoSigned | internal/httpclient/client.go:197-330 | an invalid request fails before any round trip and leaves the bad hosts alone; otherwise the call is `Run` with fast-fail set by the context or by the host being bad; the host is marked bad after an error exactly when the context had not asked for fast-fail |
| Strconv.ParseUint32 | internal/httpclient/client.go:264 | the parsed value never exceeds 2^32-1, and is 0 for an empty string or one not starting with a digit |
| Strconv.Accumulate | internal/httpclient/client.go:264 | the digit loop of ParseUint never yields more than 2^32-1 |
| Strconv.AccumulateStops | internal/httpclient/client.go:264 | at the first non-digit the loop gives 0 when the digits before it fit in 32 bits, and 2^32-1 when they do not |
| Strconv.ParseUint32Stops | internal/httpclient/client.go:264 | a string whose first non-digit follows digits worth at most 2^32-1 parses as 0 ("12x"); one whose leading digits overflow parses as 2^32-1 ("99999999999x") |
| Strconv.ParseUint32Digits | internal/httpclient/client.go:264 | an all-digit string parses to its decimal value, or to 2^32-1 when that is larger |
| Strconv.ParseFormatRoundTrip | internal/httpclient/client.go:264 | a 32-bit number printed in decimal parses back to itself |
| Paging.SinceID | internal/paging/boundary.go:58-64 | key `since_id`, descending, the value as given |
| Paging.MinID | internal/paging/boundary.go:67-73 | key `min_id`, ascending, the value as given |
| Paging.MaxID | internal/paging/boundary.go:77-83 | key `max_id`, descending, the value as given |
| Paging.MinShortcodeDomain | internal/paging/boundary.go:87-93 | key `min_shortcode_domain`, ascending, the value as given |
| Paging.MaxShortcodeDomain | internal/paging/boundary.go:97-103 | key `max_shortcode_domain`, descending, the value as given |
| Paging.EitherMinID | internal/paging/boundary.go:23-55 | a `min_id` ascending boundary when a min ID is given, otherwise a `since_id` descending one; the boundary is set exactly when either ID is given |
| Paging.Boundary.With | internal/paging/boundary.go:114-120 | the same key and order, with the new value |
| Paging.WithKeepsKey | internal/paging/boundary.go:114-120 | replacing the value keeps a known key and its order; replacing with the same value is the identity; the last replacement wins |
| Paging.WithRebuilds | internal/paging/boundary.go:58-120 | a constructed boundary with its value replaced is the same constructor applied to the new value |
| Paging.KeysDistinct | internal/paging/boundary.go:58-103 | the five query keys are pairwise different |
| Paging.Boundary.Find | internal/paging/boundary.go:122-133 | -1 for an unset boundary; otherwise the first index holding the value, or -1 when no element equals it; always within [-1, length) |

## Left out

- The transport itself is not modelled: dialling, TLS, proxies, HTTP/2 and the connection pool. Each round trip's result is an input of the model.
- The IP-range sanitizer, `Sanitizer`, is not part of this model. Its refusal shows up only as an error wrapping `ErrReservedAddr`.
- `ValidateRequest` and the signing callback are not part of this model. Validation's verdict is the `invalid` parameter of `DoSigned`. Signing failures are among the transport results.
- `Do` is `DoSigned` with a signer that does nothing. It has no member of its own.
- Logging is not modelled.
- The real sleep is not modelled. The wait is recorded in the ghost backoff log, and whether the context ends during it is an input.
- The bad-hosts cache's one-hour TTL, its sweep, and its 1000-entry capacity are not modelled. `badHosts` is a plain set that only grows.
- `time.Now`, `http.ParseTime` and `runtime.GOMAXPROCS` are inputs: a clock reading per attempt, a parser function, and the `procs` parameter.
- Client.DoSigned: the body limiter is modelled on values. Replacing the response body in place is not captured, nor draining it into `io.Discard` before close, nor closing a retried response's body.
- Client.DoSigned: concurrent calls sharing one client and its cache are not modelled. Each call is atomic.
- Durations are unbounded integers. `Time.Sub` saturating at the largest duration cannot change a result that is then capped at 10 s.
- The allow and block IP ranges, the dialer's timeouts and the transport's fixed timeouts are not modelled. They are constants handed to code outside this model.
- Paging's `Order` type and the rest of the paging package (pages, limits, query parsing) are not part of this model.

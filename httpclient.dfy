/** The outbound HTTP client: configuration defaulting, the response body
    limiter, the classification of one attempt's outcome, the Retry-After
    and exponential backoff, and the retry loop that ties them together with
    the bad-hosts set. Durations and instants are nanoseconds, as Go's
    time.Duration and time.Time count them. */
module HttpClient {
  import opened Wrappers
  import Strconv

  // ---------------------------------------------------------------------
  // Constants
  // ---------------------------------------------------------------------

  const Second: int := 1_000_000_000

  /** Maximum number of transport attempts per call. */
  const MaxRetries: nat := 5

  /** Starting backoff, doubled per attempt. */
  const BaseBackoff: int := 2 * Second

  /** Ceiling on a backoff taken from a Retry-After header (10 s). */
  const MaxBackoff: int := BaseBackoff * MaxRetries

  const StatusTooManyRequests: int := 429

  const MiB: int := 1024 * 1024

  /** Go's zero time.Time, January 1 of year 1 UTC, in nanoseconds since the
      Unix epoch: what a failed HTTP-date parse leaves behind. */
  const ZeroTime: int := -62_135_596_800 * Second

  // ---------------------------------------------------------------------
  // Go's 64-bit integers
  // ---------------------------------------------------------------------

  newtype int64 = x: int | -0x8000_0000_0000_0000 <= x < 0x8000_0000_0000_0000

  predicate InInt64(x: int) {
    -0x8000_0000_0000_0000 <= x < 0x8000_0000_0000_0000
  }

  /** Two's-complement wrap-around of an integer to 64 bits. */
  function Wrap64(x: int): (r: int64)
    ensures InInt64(x) ==> r as int == x
    ensures (r as int - x) % 0x1_0000_0000_0000_0000 == 0
  {
    ((x + 0x8000_0000_0000_0000) % 0x1_0000_0000_0000_0000 - 0x8000_0000_0000_0000) as int64
  }

  /** Go's `a * b` on int64 values. */
  function Mul64(a: int64, b: int64): (r: int64)
    ensures InInt64(a as int * b as int) ==> r as int == a as int * b as int
  {
    Wrap64(a as int * b as int)
  }

  // ---------------------------------------------------------------------
  // Configuration
  // ---------------------------------------------------------------------

  /** The tunables of a client; a value of zero or below means "unset". The
      allow and block IP ranges of the dial-time sanitizer are not part of
      this model. */
  datatype Config = Config(
    maxOpenConnsPerHost: int64,
    maxIdleConns: int64,
    readBufferSize: int64,
    writeBufferSize: int64,
    maxBodySize: int64,
    timeout: int64,
    disableCompression: bool,
    tlsInsecureSkipVerify: bool)

  /** The tunables New hands on to the underlying transport. */
  datatype Transport = Transport(
    maxIdleConns: int64,
    readBufferSize: int64,
    writeBufferSize: int64,
    disableCompression: bool,
    tlsInsecureSkipVerify: bool)

  const DefaultMaxBodySize: int64 := 512 * 1024 * 1024

  /** The configuration after New's defaulting, stated field by field: an
      unset per-host limit becomes 20 per processor, an unset idle limit ten
      times the (defaulted) per-host limit, an unset body limit 512 MiB. */
  function Defaulted(cfg: Config, procs: int64): (d: Config)
    ensures cfg.maxOpenConnsPerHost <= 0 && InInt64(procs as int * 20) ==>
      d.maxOpenConnsPerHost as int == 20 * procs as int
    ensures cfg.maxIdleConns <= 0 && InInt64(d.maxOpenConnsPerHost as int * 10) ==>
      d.maxIdleConns as int == 10 * d.maxOpenConnsPerHost as int
    ensures cfg.maxBodySize <= 0 ==> d.maxBodySize as int == 512 * MiB
  {
    var open := if cfg.maxOpenConnsPerHost > 0 then cfg.maxOpenConnsPerHost else Mul64(procs, 20);
    cfg.(maxOpenConnsPerHost := open,
         maxIdleConns := if cfg.maxIdleConns > 0 then cfg.maxIdleConns else Mul64(open, 10),
         maxBodySize := if cfg.maxBodySize > 0 then cfg.maxBodySize else DefaultMaxBodySize)
  }

  /** Neither default multiplication leaves the 64-bit range. */
  predicate NoDefaultOverflow(cfg: Config, procs: int64) {
    && InInt64(procs as int * 20)
    && InInt64((if cfg.maxOpenConnsPerHost > 0 then cfg.maxOpenConnsPerHost as int else procs as int * 20) * 10)
  }

  /** Values that are set are kept, and nothing but the three limits changes. */
  lemma DefaultsKeepGiven(cfg: Config, procs: int64)
    ensures cfg.maxOpenConnsPerHost > 0 ==> Defaulted(cfg, procs).maxOpenConnsPerHost == cfg.maxOpenConnsPerHost
    ensures cfg.maxIdleConns > 0 ==> Defaulted(cfg, procs).maxIdleConns == cfg.maxIdleConns
    ensures cfg.maxBodySize > 0 ==> Defaulted(cfg, procs).maxBodySize == cfg.maxBodySize
    ensures Defaulted(cfg, procs).(maxOpenConnsPerHost := 0, maxIdleConns := 0, maxBodySize := 0)
         == cfg.(maxOpenConnsPerHost := 0, maxIdleConns := 0, maxBodySize := 0)
  {
  }

  /** With a positive processor count and no overflow every limit ends up
      set, and defaulting a second time changes nothing. */
  lemma DefaultsSettle(cfg: Config, procs: int64)
    requires procs >= 1 && NoDefaultOverflow(cfg, procs)
    ensures var d := Defaulted(cfg, procs);
      d.maxOpenConnsPerHost > 0 && d.maxIdleConns > 0 && d.maxBodySize > 0
    ensures Defaulted(Defaulted(cfg, procs), procs) == Defaulted(cfg, procs)
  {
  }

  /** All three limits unset: 20 connections per host per processor, 200 idle
      connections per processor, 512 MiB of body. */
  lemma DefaultsFromProcs(cfg: Config, procs: int64)
    requires cfg.maxOpenConnsPerHost <= 0 && cfg.maxIdleConns <= 0 && cfg.maxBodySize <= 0
    requires 1 <= procs && InInt64(procs as int * 200)
    ensures Defaulted(cfg, procs).maxOpenConnsPerHost as int == 20 * procs as int
    ensures Defaulted(cfg, procs).maxIdleConns as int == 200 * procs as int
    ensures Defaulted(cfg, procs).maxBodySize as int == 512 * MiB
  {
  }

  // ---------------------------------------------------------------------
  // Errors
  // ---------------------------------------------------------------------

  /** The sentinel errors of the package and of Go's context package. */
  datatype Sentinel = InvalidRequest | InvalidNetwork | ReservedAddr | BodyTooLarge | DeadlineExceeded | Canceled

  /** An error value as the retry loop inspects it: its message, the
      sentinels errors.Is finds along its wrap chain, whether errors.As finds a
      DNS error in it (and that error's IsNotFound), and whether it carries
      the application's not-found marker. */
  datatype Error = Error(msg: string, wraps: set<Sentinel>, dns: Option<bool>, notFound: bool)

  function SentinelMessage(s: Sentinel): string {
    match s
    case InvalidRequest => "invalid http request"
    case InvalidNetwork => "invalid network type"
    case ReservedAddr => "dial within blocked / reserved IP range"
    case BodyTooLarge => "body size too large"
    case DeadlineExceeded => "context deadline exceeded"
    case Canceled => "context canceled"
  }

  function SentinelError(s: Sentinel): Error {
    Error(SentinelMessage(s), {s}, None, false)
  }

  /** The sentinels after which no further attempt is made. */
  const FatalSentinels: set<Sentinel> := {DeadlineExceeded, Canceled, BodyTooLarge, ReservedAddr}

  const MaxRetriesError: Error := Error("transport reached max retries", {}, None, false)

  /** The error made from a retryable response's status line. */
  function StatusError(status: string): Error {
    Error("http response: " + status, {}, None, false)
  }

  /** `fmt.Errorf("%w (fast fail)", e)`: the same chain, a longer message. */
  function FastFailError(e: Error): Error {
    e.(msg := e.msg + " (fast fail)")
  }

  function SetNotFound(e: Error): Error {
    e.(notFound := true)
  }

  /** strings.Contains: `sub` occurs in `s` at some position. */
  predicate Contains(s: string, sub: string)
    decreases |s|
  {
    (|sub| <= |s| && s[..|sub|] == sub) || (s != [] && Contains(s[1..], sub))
  }

  /** `sub` occurs in `s` starting at position `k`. */
  predicate OccursAt(s: string, sub: string, k: int) {
    0 <= k && k + |sub| <= |s| && s[k..k + |sub|] == sub
  }

  /** Contains finds `sub` exactly when it occurs at some position. */
  lemma {:induction false} ContainsIff(s: string, sub: string)
    ensures Contains(s, sub) <==> exists k :: OccursAt(s, sub, k)
    decreases |s|
  {
    if |sub| <= |s| && s[..|sub|] == sub {
      assert OccursAt(s, sub, 0);
    }
    if s != [] {
      ContainsIff(s[1..], sub);
      forall k | OccursAt(s[1..], sub, k)
        ensures OccursAt(s, sub, k + 1)
      {
        assert s[k + 1..k + 1 + |sub|] == s[1..][k..k + |sub|];
      }
      forall k | 1 <= k && OccursAt(s, sub, k)
        ensures OccursAt(s[1..], sub, k - 1)
      {
        assert s[1..][k - 1..k - 1 + |sub|] == s[k..k + |sub|];
      }
    }
  }

  /** Errors that are not wrapped and are recognised by their message. */
  predicate HasFatalMessage(e: Error) {
    Contains(e.msg, "stopped after 10 redirects") || Contains(e.msg, "tls: ") || Contains(e.msg, "x509: ")
  }

  // ---------------------------------------------------------------------
  // Responses and the body limiter
  // ---------------------------------------------------------------------

  /** A response as the transport delivers it: status code and line, the
      Retry-After header ("" when absent), the declared content length (-1
      when unknown) and the bytes the peer would send. */
  datatype RawResponse = RawResponse(statusCode: int, status: string, retryAfter: string, contentLength: int, data: seq<bv8>)

  /** A response whose body is read through a limit reader. */
  datatype Response = Response(raw: RawResponse, limit: int)

  /** What a caller can read from the body: at most `limit` bytes, none
      when the limit is zero or below. */
  function Readable(r: Response): seq<bv8> {
    var n := if r.limit <= 0 then 0 else if r.limit < |r.raw.data| then r.limit else |r.raw.data|;
    r.raw.data[..n]
  }

  /** The `do` wrapper around one transport round trip: a transport error
      passes through; a declared length above `bodyMax` fails with
      body-too-large; otherwise the body is limited to the declared length,
      or to `bodyMax` when the length is unknown. */
  function DoLimited(bodyMax: int, raw: Result<RawResponse, Error>): (r: Result<Response, Error>)
    ensures raw.Err? ==> r == Err(raw.error)
    ensures raw.Ok? ==> (r.Err? <==> raw.value.contentLength > bodyMax)
    ensures raw.Ok? && r.Err? ==> r.error == SentinelError(BodyTooLarge)
    ensures r.Ok? ==> raw.Ok? && r.value.raw == raw.value
    ensures r.Ok? ==> r.value.limit == if raw.value.contentLength < 0 then bodyMax else raw.value.contentLength
  {
    match raw
    case Err(e) => Err(e)
    case Ok(rsp) =>
      var limit := if rsp.contentLength < 0 then bodyMax else rsp.contentLength;
      if rsp.contentLength > bodyMax then Err(SentinelError(BodyTooLarge))
      else Ok(Response(rsp, limit))
  }

  /** What a caller can read of a limited body: the first bytes sent, as
      many as the read limit (the declared length, or `bodyMax` when it is
      unknown) allows, so never more than `bodyMax` nor than a declared
      length, and all of them when they fit. */
  lemma DoLimitedContract(bodyMax: int, raw: Result<RawResponse, Error>)
    requires bodyMax > 0
    ensures var r := DoLimited(bodyMax, raw);
      var limit := if raw.Ok? && raw.value.contentLength >= 0 then raw.value.contentLength else bodyMax;
      && (r.Ok? ==> Readable(r.value) <= raw.value.data && |Readable(r.value)| <= bodyMax)
      && (r.Ok? ==> |Readable(r.value)| == if |raw.value.data| < limit then |raw.value.data| else limit)
      && (r.Ok? && raw.value.contentLength >= 0 ==> |Readable(r.value)| <= raw.value.contentLength)
      && (r.Ok? && |raw.value.data| <= (if raw.value.contentLength < 0 then bodyMax else raw.value.contentLength)
          ==> Readable(r.value) == raw.value.data)
  {
  }

  // ---------------------------------------------------------------------
  // Classification of one attempt
  // ---------------------------------------------------------------------

  datatype Class =
    | Success        // status below 500 and not 429
    | RetryStatus    // 5xx or 429
    | FatalSentinel  // wraps one of FatalSentinels
    | FatalMessage   // redirect limit, TLS or certificate failure
    | NotFoundDNS    // DNS lookup says the name does not exist
    | RetryError     // any other error

  /** The order of the tests is the order of precedence. */
  function Classify(res: Result<Response, Error>): (c: Class)
    ensures res.Ok? <==> c in {Success, RetryStatus}
    ensures c == Success <==>
      res.Ok? && res.value.raw.statusCode < 500 && res.value.raw.statusCode != StatusTooManyRequests
  {
    match res
    case Ok(rsp) =>
      if rsp.raw.statusCode < 500 && rsp.raw.statusCode != StatusTooManyRequests then Success else RetryStatus
    case Err(e) =>
      if e.wraps * FatalSentinels != {} then FatalSentinel
      else if HasFatalMessage(e) then FatalMessage
      else if e.dns == Some(true) then NotFoundDNS
      else RetryError
  }

  predicate Retryable(c: Class) {
    c == RetryStatus || c == RetryError
  }

  /** The error a retryable outcome carries. */
  function RetryErrorOf(res: Result<Response, Error>): Error {
    if res.Ok? then StatusError(res.value.raw.status) else res.error
  }

  /** A body that is declared too large is never retried. */
  lemma BodyTooLargeIsFatal(bodyMax: int, raw: RawResponse)
    requires bodyMax > 0 && raw.contentLength > bodyMax
    ensures Classify(DoLimited(bodyMax, Ok(raw))) == FatalSentinel
  {
    assert BodyTooLarge in SentinelError(BodyTooLarge).wraps * FatalSentinels;
  }

  /** An error wrapping a fatal sentinel is fatal whatever its message and
      DNS detail; a DNS not-found only counts when no earlier test matched. */
  lemma ClassifyPrecedence(e: Error)
    ensures e.wraps * FatalSentinels != {} ==> Classify(Err(e)) == FatalSentinel
    ensures Classify(Err(e)) == NotFoundDNS <==>
      e.wraps * FatalSentinels == {} && !HasFatalMessage(e) && e.dns == Some(true)
    ensures Retryable(Classify(Err(e))) <==>
      e.wraps * FatalSentinels == {} && !HasFatalMessage(e) && e.dns != Some(true)
  {
  }

  // ---------------------------------------------------------------------
  // Backoff
  // ---------------------------------------------------------------------

  function Pow2(n: nat): (p: nat)
    ensures p >= 1
  {
    if n == 0 then 1 else 2 * Pow2(n - 1)
  }

  lemma {:induction false} Pow2Grows(n: nat)
    ensures n >= 3 ==> Pow2(n) >= 8
  {
    if n > 3 {
      Pow2Grows(n - 1);
    }
  }

  /** `baseBackoff * 1 << (i + 1)`: at least 4 s, and above the Retry-After
      cap from the third attempt on. */
  function ExpBackoff(i: nat): (e: int)
    ensures e >= 4 * Second
    ensures e > MaxBackoff <==> i >= 2
  {
    Pow2Grows(i + 1);
    BaseBackoff * Pow2(i + 1)
  }

  /** The exponential schedule over the five attempts, doubling each time
      and not itself capped. */
  lemma ExpBackoffSchedule(i: nat)
    ensures [ExpBackoff(0), ExpBackoff(1), ExpBackoff(2), ExpBackoff(3), ExpBackoff(4)]
         == [4 * Second, 8 * Second, 16 * Second, 32 * Second, 64 * Second]
    ensures ExpBackoff(i + 1) == 2 * ExpBackoff(i)
  {
  }

  /** The backoff a Retry-After header asks for, 0 when it asks for none: a
      non-zero 32-bit decimal gives that many seconds, otherwise an HTTP date
      not before `now` gives the time until it (a date that does not parse
      reads as Go's zero time); either is capped at MaxBackoff. */
  function RetryAfterBackoff(after: string, now: int, parseTime: string -> Option<int>): (d: int)
    ensures 0 <= d <= MaxBackoff
    ensures after == "" ==> d == 0
  {
    if after == "" then 0
    else
      var u := Strconv.ParseUint32(after);
      var at := match parseTime(after) case Some(t) => t case None => ZeroTime;
      var d := if u != 0 then u * Second else if !(at < now) then at - now else 0;
      if d > MaxBackoff then MaxBackoff else d
  }

  /** Delay-seconds: a header printing u seconds asks for u seconds, up to
      the cap. */
  lemma RetryAfterSeconds(u: nat, now: int, parseTime: string -> Option<int>)
    requires 1 <= u <= Strconv.MaxUint32
    ensures RetryAfterBackoff(Strconv.FormatUint(u), now, parseTime)
         == if u * Second > MaxBackoff then MaxBackoff else u * Second
  {
    Strconv.ParseFormatRoundTrip(u);
  }

  /** A decimal too large for 32 bits parses as the 32-bit maximum, so it
      asks for the cap. */
  lemma RetryAfterHugeSeconds(after: string, now: int, parseTime: string -> Option<int>)
    requires after != "" && Strconv.AllDigits(after) && Strconv.DecimalValue(after) > Strconv.MaxUint32
    ensures RetryAfterBackoff(after, now, parseTime) == MaxBackoff
  {
    Strconv.ParseUint32Digits(after);
  }

  /** HTTP-date: a header that is not a non-zero number asks for the time
      until the date it names, nothing once that date has passed, and
      nothing when it is no date at all. */
  lemma RetryAfterDate(after: string, now: int, parseTime: string -> Option<int>)
    requires after != "" && Strconv.ParseUint32(after) == 0
    ensures parseTime(after).Some? && parseTime(after).value >= now ==>
      RetryAfterBackoff(after, now, parseTime)
        == if parseTime(after).value - now > MaxBackoff then MaxBackoff else parseTime(after).value - now
    ensures parseTime(after).Some? && parseTime(after).value < now ==> RetryAfterBackoff(after, now, parseTime) == 0
    ensures parseTime(after).None? && now > ZeroTime ==> RetryAfterBackoff(after, now, parseTime) == 0
  {
  }

  /** The backoff chosen after a retryable attempt `i`: the Retry-After
      backoff when it is non-zero, the exponential one otherwise. */
  function ChosenBackoff(res: Result<Response, Error>, now: int, parseTime: string -> Option<int>, i: nat): (d: int)
    ensures d > 0
    ensures d == ExpBackoff(i) || d <= MaxBackoff
    ensures res.Ok? && RetryAfterBackoff(res.value.raw.retryAfter, now, parseTime) != 0 ==>
      d == RetryAfterBackoff(res.value.raw.retryAfter, now, parseTime)
    ensures res.Err? || RetryAfterBackoff(res.value.raw.retryAfter, now, parseTime) == 0 ==> d == ExpBackoff(i)
  {
    var hint := if res.Ok? then RetryAfterBackoff(res.value.raw.retryAfter, now, parseTime) else 0;
    if hint == 0 then ExpBackoff(i) else hint
  }

  // ---------------------------------------------------------------------
  // The retry loop, as a specification
  // ---------------------------------------------------------------------

  /** What a call cannot see but is driven by, one entry per attempt: the
      transport's result, the clock when the Retry-After header is read,
      whether the request context is done before the backoff timer fires
      (and with which error), and Go's HTTP-date parser. */
  datatype Env = Env(
    transport: seq<Result<RawResponse, Error>>,
    clock: seq<int>,
    wake: seq<Option<Sentinel>>,
    parseTime: string -> Option<int>)

  predicate WellFormedEnv(env: Env) {
    && |env.transport| >= MaxRetries && |env.clock| >= MaxRetries && |env.wake| >= MaxRetries
    && forall k :: 0 <= k < |env.wake| && env.wake[k].Some? ==> env.wake[k].value in {Canceled, DeadlineExceeded}
  }

  /** What one attempt amounts to for the retry loop: the limited result,
      its class, the backoff that would follow it, and whether the context
      is done before that backoff ends. */
  datatype Attempt = Attempt(res: Result<Response, Error>, kind: Class, backoff: int, wake: Option<Sentinel>)

  function AttemptAt(env: Env, bodyMax: int, k: nat): Attempt
    requires WellFormedEnv(env) && k < MaxRetries
  {
    var res := DoLimited(bodyMax, env.transport[k]);
    Attempt(res, Classify(res), ChosenBackoff(res, env.clock[k], env.parseTime, k), env.wake[k])
  }

  /** The attempts of a call, as the environment and the body limit make them. */
  function Attempts(env: Env, bodyMax: int): (atts: seq<Attempt>)
    requires WellFormedEnv(env)
    ensures |atts| == MaxRetries
    ensures forall k :: 0 <= k < MaxRetries ==> atts[k] == AttemptAt(env, bodyMax, k)
  {
    seq(MaxRetries, k requires 0 <= k < MaxRetries => AttemptAt(env, bodyMax, k))
  }

  /** A class that returns a response comes with one, a class that returns
      an error with an error. */
  predicate Consistent(a: Attempt) {
    && (a.kind == Success ==> a.res.Ok?)
    && (a.kind in {FatalSentinel, FatalMessage, NotFoundDNS} ==> a.res.Err?)
  }

  predicate ValidAttempts(atts: seq<Attempt>) {
    |atts| == MaxRetries && forall k :: 0 <= k < |atts| ==> Consistent(atts[k])
  }

  /** The attempts of every environment are valid, and a retryable one
      is followed by a positive backoff. */
  lemma AttemptsValid(env: Env, bodyMax: int)
    requires WellFormedEnv(env)
    ensures ValidAttempts(Attempts(env, bodyMax))
    ensures forall k :: 0 <= k < MaxRetries ==> Attempts(env, bodyMax)[k].backoff > 0
  {
  }

  /** How a call ended. */
  datatype Terminal = Succeeded | FailedFatal | FastFailed | Cancelled | Exhausted

  /** The response and error a call returns, how it ended, how many
      transport attempts it made and the backoffs it chose, in order. */
  datatype Call = Call(rsp: Option<Response>, err: Option<Error>, end: Terminal, attempts: nat, backoffs: seq<int>)

  /** Whether attempt `i` is followed by another: its outcome is retryable,
      fast-fail is off, and its backoff runs to the end. */
  predicate Continues(atts: seq<Attempt>, fastFail: bool, i: nat)
    requires i < |atts|
  {
    !fastFail && Retryable(atts[i].kind) && atts[i].wake.None?
  }

  /** The call that ends at attempt `i`. */
  function Stop(atts: seq<Attempt>, fastFail: bool, i: nat): (c: Call)
    requires ValidAttempts(atts) && i < MaxRetries
    requires !Continues(atts, fastFail, i)
    ensures c.attempts == 1 && c.end != Exhausted
    ensures (c.rsp.Some? <==> c.end == Succeeded) && (c.err.Some? <==> c.end != Succeeded)
    ensures c.backoffs == if c.end == Cancelled then [atts[i].backoff] else []
  {
    var a := atts[i];
    assert Consistent(a);
    match a.kind
    case Success => Call(Some(a.res.value), None, Succeeded, 1, [])
    case FatalSentinel => Call(None, Some(a.res.error), FailedFatal, 1, [])
    case FatalMessage => Call(None, Some(a.res.error), FailedFatal, 1, [])
    case NotFoundDNS => Call(None, Some(SetNotFound(a.res.error)), FailedFatal, 1, [])
    case _ =>
      if fastFail then Call(None, Some(FastFailError(RetryErrorOf(a.res))), FastFailed, 1, [])
      else Call(None, Some(SentinelError(a.wake.value)), Cancelled, 1, [a.backoff])
  }

  /** The call from attempt `i` on. */
  function Run(atts: seq<Attempt>, fastFail: bool, i: nat): (c: Call)
    requires ValidAttempts(atts) && i <= MaxRetries
    ensures i + c.attempts <= MaxRetries
    ensures i < MaxRetries ==> c.attempts >= 1
    ensures (c.rsp.Some? <==> c.end == Succeeded) && (c.err.Some? <==> c.end != Succeeded)
    decreases MaxRetries - i
  {
    if i == MaxRetries then Call(None, Some(MaxRetriesError), Exhausted, 0, [])
    else if Continues(atts, fastFail, i) then
      var rest := Run(atts, fastFail, i + 1);
      rest.(attempts := rest.attempts + 1, backoffs := [atts[i].backoff] + rest.backoffs)
    else Stop(atts, fastFail, i)
  }

  /** A call's outcome seen from `i` attempts earlier. */
  function Resume(i: nat, before: seq<int>, c: Call): Call {
    c.(attempts := c.attempts + i, backoffs := before + c.backoffs)
  }

  /** Taking one more retried attempt into the prefix leaves the whole call
      unchanged. */
  lemma ResumeStep(i: nat, before: seq<int>, b: int, c: Call)
    ensures Resume(i + 1, before + [b], c) == Resume(i, before, c.(attempts := c.attempts + 1, backoffs := [b] + c.backoffs))
  {
    assert before + [b] + c.backoffs == before + ([b] + c.backoffs);
  }

  /** One backoff per retried attempt (also for the attempt whose backoff
      was cancelled, and for the last attempt before retries run out);
      running out means MaxRetries attempts and the max-retries error. */
  lemma {:induction false} RunAttempts(atts: seq<Attempt>, fastFail: bool, i: nat)
    requires ValidAttempts(atts) && i <= MaxRetries
    ensures var c := Run(atts, fastFail, i);
      && |c.backoffs| == (if c.end == Cancelled || c.end == Exhausted then c.attempts else c.attempts - 1)
      && (c.end == Exhausted ==> i + c.attempts == MaxRetries && c.rsp == None && c.err == Some(MaxRetriesError))
    decreases MaxRetries - i
  {
    if i < MaxRetries && Continues(atts, fastFail, i) {
      RunAttempts(atts, fastFail, i + 1);
    }
  }

  /** Every attempt but the last was retried (retryable, fast-fail off, its
      backoff run to the end) and the last one was not. */
  lemma {:induction false} RunRetried(atts: seq<Attempt>, fastFail: bool, i: nat)
    requires ValidAttempts(atts) && i <= MaxRetries
    ensures var c := Run(atts, fastFail, i);
      && (forall k :: i <= k < i + c.attempts - 1 ==> k < MaxRetries && Continues(atts, fastFail, k))
      && (c.end != Exhausted ==> i + c.attempts - 1 < MaxRetries && !Continues(atts, fastFail, i + c.attempts - 1))
    decreases MaxRetries - i
  {
    var c := Run(atts, fastFail, i);
    if i == MaxRetries {
      return;
    }
    if !Continues(atts, fastFail, i) {
      assert c == Stop(atts, fastFail, i);
      return;
    }
    var r := Run(atts, fastFail, i + 1);
    RunRetried(atts, fastFail, i + 1);
    assert c == r.(attempts := r.attempts + 1, backoffs := [atts[i].backoff] + r.backoffs);
    forall k | i <= k < i + c.attempts - 1
      ensures k < MaxRetries && Continues(atts, fastFail, k)
    {
      if k > i {
        assert i + 1 <= k < (i + 1) + r.attempts - 1;
      }
    }
    if c.end != Exhausted {
      assert i + c.attempts - 1 == (i + 1) + r.attempts - 1;
    }
  }

  /** `log` lists, in order, the backoffs of the attempts from `i` on. */
  predicate LogsBackoffs(atts: seq<Attempt>, i: nat, log: seq<int>) {
    i + |log| <= |atts| && forall k :: 0 <= k < |log| ==> log[k] == atts[i + k].backoff
  }

  /** Prepending attempt `i`'s backoff to a log of the later ones. */
  lemma LogsBackoffsCons(atts: seq<Attempt>, i: nat, log: seq<int>)
    requires i < |atts| && LogsBackoffs(atts, i + 1, log)
    ensures LogsBackoffs(atts, i, [atts[i].backoff] + log)
  {
    var l := [atts[i].backoff] + log;
    forall k | 0 <= k < |l|
      ensures l[k] == atts[i + k].backoff
    {
      if k > 0 {
        assert l[k] == log[k - 1] == atts[(i + 1) + (k - 1)].backoff;
      }
    }
  }

  /** The backoffs logged are, attempt by attempt, the ones chosen. */
  lemma {:induction false} RunBackoffs(atts: seq<Attempt>, fastFail: bool, i: nat)
    requires ValidAttempts(atts) && i <= MaxRetries
    ensures LogsBackoffs(atts, i, Run(atts, fastFail, i).backoffs)
    decreases MaxRetries - i
  {
    var c := Run(atts, fastFail, i);
    if i == MaxRetries {
      assert c.backoffs == [];
    } else if Continues(atts, fastFail, i) {
      var r := Run(atts, fastFail, i + 1);
      RunBackoffs(atts, fastFail, i + 1);
      assert c.backoffs == [atts[i].backoff] + r.backoffs;
      LogsBackoffsCons(atts, i, r.backoffs);
    } else {
      assert c == Stop(atts, fastFail, i);
    }
  }

  /** The last attempt decides how the call ends: the call returns what
      Stop gives for that attempt. */
  lemma {:induction false} RunLastAttempt(atts: seq<Attempt>, fastFail: bool, i: nat)
    requires ValidAttempts(atts) && i < MaxRetries
    ensures var c := Run(atts, fastFail, i);
      var last := i + c.attempts - 1;
      c.end != Exhausted ==>
        && i <= last < MaxRetries
        && !Continues(atts, fastFail, last)
        && c.rsp == Stop(atts, fastFail, last).rsp
        && c.err == Stop(atts, fastFail, last).err
        && c.end == Stop(atts, fastFail, last).end
    decreases MaxRetries - i
  {
    var c := Run(atts, fastFail, i);
    if !Continues(atts, fastFail, i) {
      assert c == Stop(atts, fastFail, i);
      return;
    }
    var r := Run(atts, fastFail, i + 1);
    assert c == r.(attempts := r.attempts + 1, backoffs := [atts[i].backoff] + r.backoffs);
    if i + 1 == MaxRetries {
      assert r.end == Exhausted;
      return;
    }
    RunLastAttempt(atts, fastFail, i + 1);
    if r.end != Exhausted {
      assert i + c.attempts - 1 == (i + 1) + r.attempts - 1;
    }
  }

  /** How an attempt that is not followed by another ends the call: a
      success returns that attempt's response; a fatal outcome returns its
      error, marked not-found for a DNS not-found; under fast-fail a
      retryable outcome returns its error marked " (fast fail)"; otherwise
      the backoff was cancelled and the context's error returns. */
  lemma StopOutcome(atts: seq<Attempt>, fastFail: bool, i: nat)
    requires ValidAttempts(atts) && i < MaxRetries
    requires !Continues(atts, fastFail, i)
    ensures var c := Stop(atts, fastFail, i);
      var a := atts[i];
      && (c.end == Succeeded <==> a.kind == Success)
      && (c.end == Succeeded ==> c.rsp == Some(a.res.value))
      && (c.end == FailedFatal <==> a.kind in {FatalSentinel, FatalMessage, NotFoundDNS})
      && (c.end == FailedFatal ==> c.err == Some(if a.kind == NotFoundDNS then SetNotFound(a.res.error) else a.res.error))
      && (c.end == FastFailed <==> fastFail && Retryable(a.kind))
      && (c.end == FastFailed ==> c.err == Some(FastFailError(RetryErrorOf(a.res))))
      && (c.end == Cancelled <==> !fastFail && Retryable(a.kind))
      && (c.end == Cancelled ==> a.wake.Some? && c.err == Some(SentinelError(a.wake.value)))
  {
  }

  /** The call runs out of retries exactly when every remaining attempt is
      followed by another. */
  lemma {:induction false} RunExhaustedIff(atts: seq<Attempt>, fastFail: bool, i: nat)
    requires ValidAttempts(atts) && i <= MaxRetries
    ensures Run(atts, fastFail, i).end == Exhausted <==>
      forall k :: i <= k < MaxRetries ==> Continues(atts, fastFail, k)
    decreases MaxRetries - i
  {
    if i < MaxRetries && Continues(atts, fastFail, i) {
      RunExhaustedIff(atts, fastFail, i + 1);
    }
  }

  /** Under fast-fail exactly one attempt is made and no backoff is taken. */
  lemma FastFailOneAttempt(atts: seq<Attempt>)
    requires ValidAttempts(atts)
    ensures var c := Run(atts, true, 0);
      c.attempts == 1 && c.backoffs == [] && c.end in {Succeeded, FailedFatal, FastFailed}
  {
  }

  /** A fatal outcome ends the call on that attempt, with no backoff. */
  lemma FatalEndsCall(atts: seq<Attempt>, fastFail: bool, i: nat)
    requires ValidAttempts(atts) && i < MaxRetries
    requires atts[i].kind in {FatalSentinel, FatalMessage, NotFoundDNS}
    ensures var c := Run(atts, fastFail, i);
      c.end == FailedFatal && c.rsp == None && c.attempts == 1 && c.backoffs == []
  {
  }

  /** A successful attempt returns the limited response of what the
      transport received, and is classified Success only for a status below
      500 other than 429. */
  lemma SuccessIsTransportResponse(env: Env, bodyMax: int, k: nat)
    requires WellFormedEnv(env) && bodyMax > 0 && k < MaxRetries
    requires AttemptAt(env, bodyMax, k).kind == Success
    ensures var a := AttemptAt(env, bodyMax, k);
      && env.transport[k].Ok? && a.res == Ok(Response(env.transport[k].value, a.res.value.limit))
      && env.transport[k].value.statusCode < 500 && env.transport[k].value.statusCode != StatusTooManyRequests
      && env.transport[k].value.contentLength <= bodyMax
  {
  }

  /** Five server errors without Retry-After and without cancellation: five
      attempts, backoffs of 4, 8, 16, 32 and 64 seconds, then the max-retries
      error. */
  lemma FiveServerErrors(env: Env, bodyMax: int)
    requires WellFormedEnv(env) && bodyMax > 0
    requires forall k :: 0 <= k < MaxRetries ==>
      && env.transport[k].Ok?
      && (env.transport[k].value.statusCode >= 500 || env.transport[k].value.statusCode == StatusTooManyRequests)
      && env.transport[k].value.retryAfter == ""
      && env.transport[k].value.contentLength <= bodyMax
      && env.wake[k].None?
    ensures Run(Attempts(env, bodyMax), false, 0)
         == Call(None, Some(MaxRetriesError), Exhausted, 5, [4 * Second, 8 * Second, 16 * Second, 32 * Second, 64 * Second])
  {
    var atts := Attempts(env, bodyMax);
    AttemptsValid(env, bodyMax);
    ExpBackoffSchedule(0);
    forall k | 0 <= k < MaxRetries
      ensures Continues(atts, false, k) && atts[k].backoff == ExpBackoff(k)
    {
      assert atts[k] == AttemptAt(env, bodyMax, k);
    }
    assert Run(atts, false, 4) == Call(None, Some(MaxRetriesError), Exhausted, 1, [64 * Second]);
    assert Run(atts, false, 3) == Call(None, Some(MaxRetriesError), Exhausted, 2, [32 * Second, 64 * Second]);
    assert Run(atts, false, 2) == Call(None, Some(MaxRetriesError), Exhausted, 3, [16 * Second, 32 * Second, 64 * Second]);
    assert Run(atts, false, 1)
        == Call(None, Some(MaxRetriesError), Exhausted, 4, [8 * Second, 16 * Second, 32 * Second, 64 * Second]);
  }

  /** A retryable status on attempt `k` whose Retry-After header prints
      u seconds is followed by a backoff of u seconds, capped at 10 s, in
      place of the exponential one. */
  lemma RetryAfterSecondsUsed(env: Env, bodyMax: int, k: nat, u: nat)
    requires WellFormedEnv(env) && k < MaxRetries && 1 <= u <= Strconv.MaxUint32
    requires env.transport[k].Ok? && env.transport[k].value.contentLength <= bodyMax
    requires env.transport[k].value.statusCode >= 500 || env.transport[k].value.statusCode == StatusTooManyRequests
    requires env.transport[k].value.retryAfter == Strconv.FormatUint(u)
    ensures var a := Attempts(env, bodyMax)[k];
      && a.kind == RetryStatus
      && a.backoff == if u * Second > MaxBackoff then MaxBackoff else u * Second
  {
    assert Attempts(env, bodyMax)[k] == AttemptAt(env, bodyMax, k);
    RetryAfterSeconds(u, env.clock[k], env.parseTime);
  }

  /** A 503 carrying `Retry-After: 2` is followed by a backoff of exactly two
      seconds, not the exponential one. */
  lemma RetryAfterTwoSeconds(env: Env, bodyMax: int)
    requires WellFormedEnv(env) && bodyMax > 0 && env.wake[0].None?
    requires env.transport[0].Ok? && env.transport[0].value.statusCode == 503
    requires env.transport[0].value.retryAfter == "2" && env.transport[0].value.contentLength <= bodyMax
    ensures var c := Run(Attempts(env, bodyMax), false, 0);
      |c.backoffs| >= 1 && c.backoffs[0] == 2 * Second
  {
    var atts := Attempts(env, bodyMax);
    AttemptsValid(env, bodyMax);
    assert Strconv.FormatUint(2) == "2";
    RetryAfterSecondsUsed(env, bodyMax, 0, 2);
    assert Continues(atts, false, 0);
  }

  // ---------------------------------------------------------------------
  // The client
  // ---------------------------------------------------------------------

  /** An outgoing request as the retry loop sees it: the URL's host name and
      whether its context asks for fast-fail. */
  datatype Request = Request(host: string, fastFail: bool)

  class Client {
    /** Hosts whose last call ended in an error. */
    var badHosts: set<string>
    const bodyMax: int
    const timeout: int64
    const transport: Transport

    predicate Valid() {
      bodyMax > 0
    }

    /** New, with runtime.GOMAXPROCS(0) passed in as `procs`. */
    constructor (cfg: Config, procs: int64)
      requires procs >= 1
      ensures Valid()
      ensures bodyMax == Defaulted(cfg, procs).maxBodySize as int
      ensures timeout == cfg.timeout
      ensures transport == Transport(Defaulted(cfg, procs).maxIdleConns, cfg.readBufferSize,
                                     cfg.writeBufferSize, cfg.disableCompression, cfg.tlsInsecureSkipVerify)
      ensures badHosts == {}
    {
      var c := cfg;
      if c.maxOpenConnsPerHost <= 0 {
        c := c.(maxOpenConnsPerHost := Mul64(procs, 20));
      }
      if c.maxIdleConns <= 0 {
        c := c.(maxIdleConns := Mul64(c.maxOpenConnsPerHost, 10));
      }
      if c.maxBodySize <= 0 {
        c := c.(maxBodySize := DefaultMaxBodySize);
      }
      timeout := c.timeout;
      bodyMax := c.maxBodySize as int;
      transport := Transport(c.maxIdleConns, c.readBufferSize, c.writeBufferSize,
                             c.disableCompression, c.tlsInsecureSkipVerify);
      badHosts := {};
    }

    /** Attempt `i` of a call: one transport round trip through the body
        limiter, classified; `done` says whether the call ends with it, and
        otherwise `backoff` is the wait before the next attempt. */
    method AttemptOnce(i: nat, fastFail: bool, env: Env)
      returns (done: bool, rsp: Option<Response>, err: Option<Error>, ghost end: Terminal, backoff: int)
      requires Valid() && WellFormedEnv(env) && i < MaxRetries
      ensures var atts := Attempts(env, bodyMax);
        && ValidAttempts(atts)
        && (done <==> !Continues(atts, fastFail, i))
        && (done ==> Stop(atts, fastFail, i) == Call(rsp, err, end, 1, if end == Cancelled then [backoff] else []))
        && (!done ==> backoff == atts[i].backoff)
    {
      ghost var atts := Attempts(env, bodyMax);
      AttemptsValid(env, bodyMax);
      var res := DoLimited(bodyMax, env.transport[i]);
      var outcome := Classify(res);
      assert atts[i] == AttemptAt(env, bodyMax, i);
      if outcome == Success {
        return true, Some(res.value), None, Succeeded, 0;
      } else if outcome == FatalSentinel || outcome == FatalMessage {
        return true, None, Some(res.error), FailedFatal, 0;
      } else if outcome == NotFoundDNS {
        return true, None, Some(SetNotFound(res.error)), FailedFatal, 0;
      }
      // A retryable status or error; a retried response's body is closed
      // and dropped here.
      if fastFail {
        return true, None, Some(FastFailError(RetryErrorOf(res))), FastFailed, 0;
      }
      backoff := ChosenBackoff(res, env.clock[i], env.parseTime, i);
      if env.wake[i].Some? {
        return true, None, Some(SentinelError(env.wake[i].value)), Cancelled, backoff;
      }
      done, rsp, err, end := false, None, None, Exhausted;
    }

    /** The retry loop of a request: at most `MaxRetries` attempts, each
        followed by a backoff while it is retryable; `fastFail` stops at
        the first retryable failure. */
    method Retry(fastFail: bool, env: Env)
      returns (rsp: Option<Response>, err: Option<Error>,
               ghost end: Terminal, ghost attempts: nat, ghost backoffs: seq<int>)
      requires Valid() && WellFormedEnv(env)
      ensures Run(Attempts(env, bodyMax), fastFail, 0) == Call(rsp, err, end, attempts, backoffs)
    {
      ghost var atts := Attempts(env, bodyMax);
      AttemptsValid(env, bodyMax);
      ghost var spec := Run(atts, fastFail, 0);
      backoffs := [];
      var i := 0;
      while i < MaxRetries
        invariant 0 <= i <= MaxRetries
        invariant spec == Resume(i, backoffs, Run(atts, fastFail, i))
      {
        var done, backoff;
        done, rsp, err, end, backoff := AttemptOnce(i, fastFail, env);
        if done {
          ghost var last := if end == Cancelled then [backoff] else [];
          assert Run(atts, fastFail, i) == Call(rsp, err, end, 1, last);
          attempts, backoffs := i + 1, backoffs + last;
          return;
        }
        ResumeStep(i, backoffs, backoff, Run(atts, fastFail, i + 1));
        backoffs := backoffs + [backoff];
        i := i + 1;
      }
      assert backoffs + [] == backoffs;
      rsp, err, end, attempts := None, Some(MaxRetriesError), Exhausted, MaxRetries;
    }

    /** Performs `req` with retry and backoff. `invalid` is what request
        validation reports; the signing callback runs inside the transport,
        so its failures are among the transport's results. The ghost outputs
        record how the call ended, the attempts made and the backoffs taken.
        A host whose call fails is marked bad, unless the caller had asked
        for fast-fail; calls to a bad host fail fast. */
    method DoSigned(req: Request, invalid: Option<Error>, env: Env)
      returns (rsp: Option<Response>, err: Option<Error>,
               ghost end: Terminal, ghost attempts: nat, ghost backoffs: seq<int>)
      requires Valid() && WellFormedEnv(env)
      modifies this`badHosts
      ensures invalid.Some? ==>
        rsp == None && err == invalid && end == FailedFatal && attempts == 0 && backoffs == []
      ensures invalid.None? ==>
        Run(Attempts(env, bodyMax), req.fastFail || req.host in old(badHosts), 0) == Call(rsp, err, end, attempts, backoffs)
      ensures badHosts == if invalid.None? && !req.fastFail && err.Some? then old(badHosts) + {req.host} else old(badHosts)
    {
      if invalid.Some? {
        return None, invalid, FailedFatal, 0, [];
      }
      var host := req.host;
      var fastFail := req.fastFail;
      // The deferred bad-host update is armed only when the context did not
      // already ask for fast-fail.
      var markBad := !fastFail;
      if !fastFail {
        fastFail := host in badHosts;
      }
      rsp, err, end, attempts, backoffs := Retry(fastFail, env);
      if markBad && err.Some? {
        badHosts := badHosts + {host};
      }
    }
  }
}

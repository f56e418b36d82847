/** Classification of API errors and the retry policy built on it. An error
    is a sum type; the `Connect` case is matched first, before the generic
    `Error` case, as `instanceof ConnectError` is checked before
    `instanceof Error`. */
module Errors {
  import opened Base
  import opened Strings
  import opened Logger

  /** The Connect RPC status codes. */
  datatype Code =
    | Canceled | Unknown | InvalidArgument | DeadlineExceeded | NotFound
    | AlreadyExists | PermissionDenied | ResourceExhausted | FailedPrecondition
    | Aborted | OutOfRange | Unimplemented | Internal | Unavailable | DataLoss
    | Unauthenticated

  /** The numeric value of a code, as it is stored in a log context. */
  function CodeNumber(c: Code): (n: int)
    ensures 1 <= n <= 16
  {
    match c
    case Canceled => 1
    case Unknown => 2
    case InvalidArgument => 3
    case DeadlineExceeded => 4
    case NotFound => 5
    case AlreadyExists => 6
    case PermissionDenied => 7
    case ResourceExhausted => 8
    case FailedPrecondition => 9
    case Aborted => 10
    case OutOfRange => 11
    case Unimplemented => 12
    case Internal => 13
    case Unavailable => 14
    case DataLoss => 15
    case Unauthenticated => 16
  }

  /** A caught value: a `ConnectError` (code, message, raw message), a plain
      `Error` (message), or anything else (its `String(...)` conversion). */
  datatype ApiError =
    | Connect(code: Code, message: string, rawMessage: string)
    | Plain(message: string)
    | Other(repr: string)

  /** The lower-cased message fragments that mark a plain error as a network error. */
  const NetworkHints: seq<string> := ["network", "timeout", "connection", "fetch"]

  /** The codes that are worth another attempt. */
  const RetryableCodes: set<Code> := {Unavailable, DeadlineExceeded, Internal, Unknown}

  const MaxRetryDelay: int := 30000

  const UnexpectedErrorMessage: string := "An unexpected error occurred"

  /** True exactly for a Connect error whose code reports a missing or
      insufficient credential; a plain error never is one, whatever it says. */
  function IsAuthError(error: ApiError): (r: bool)
    ensures r ==> error.Connect?
    ensures error.Connect? ==> (r <==> error.code in {Unauthenticated, PermissionDenied})
  {
    match error
    case Connect(code, _, _) => code == Unauthenticated || code == PermissionDenied
    case _ => false
  }

  /** Some network hint occurs, anywhere, in the lower-cased message. */
  ghost predicate MentionsNetwork(message: string) {
    exists k :: 0 <= k < |NetworkHints| && Occurs(ToLower(message), NetworkHints[k])
  }

  /** A Connect error is a network error by its code alone; a plain error by
      its lower-cased message; any other value is not. */
  function IsNetworkError(error: ApiError): (r: bool)
    ensures error.Connect? ==> (r <==> error.code == Unavailable || error.code == DeadlineExceeded)
    ensures error.Plain? ==> (r <==> MentionsNetwork(error.message))
    ensures error.Other? ==> !r
  {
    match error
    case Connect(code, _, _) => code == Unavailable || code == DeadlineExceeded
    case Plain(message) =>
      var lower := ToLower(message);
      IncludesIff(lower, "network");
      IncludesIff(lower, "timeout");
      IncludesIff(lower, "connection");
      IncludesIff(lower, "fetch");
      assert MentionsNetwork(message) <==>
        Occurs(lower, NetworkHints[0]) || Occurs(lower, NetworkHints[1])
        || Occurs(lower, NetworkHints[2]) || Occurs(lower, NetworkHints[3]);
      Includes(lower, "network") || Includes(lower, "timeout")
      || Includes(lower, "connection") || Includes(lower, "fetch")
    case Other(_) => false
  }

  /** The text shown to the user for a caught value. */
  function GetErrorMessage(error: ApiError): (r: string)
    ensures error.Connect? ==> r != [] && (error.message != [] ==> r == error.message)
    ensures error.Connect? && error.message == [] ==> r == UnexpectedErrorMessage
    ensures error.Plain? ==> r == error.message
    ensures error.Other? ==> r == error.repr
  {
    match error
    case Connect(_, message, _) => if message != [] then message else UnexpectedErrorMessage
    case Plain(message) => message
    case Other(repr) => repr
  }

  /** The layered retry decision: the attempt cap first, then auth errors,
      then the retryable code set, and for non-Connect values the network
      heuristic. */
  function ShouldRetry(error: ApiError, attempt: int, maxAttempts: int := 3): (r: bool)
    ensures attempt >= maxAttempts ==> !r
    ensures IsAuthError(error) ==> !r
    ensures attempt < maxAttempts && error.Connect? && !IsAuthError(error) ==>
      (r <==> error.code in RetryableCodes)
    ensures attempt < maxAttempts && !error.Connect? ==> r == IsNetworkError(error)
  {
    if attempt >= maxAttempts then false
    else if IsAuthError(error) then false
    else if error.Connect? then
      error.code == Unavailable || error.code == DeadlineExceeded
      || error.code == Internal || error.code == Unknown
    else IsNetworkError(error)
  }

  function Pow2(n: nat): (r: nat)
    ensures r >= 1
  {
    if n == 0 then 1 else 2 * Pow2(n - 1)
  }

  lemma {:induction false} Pow2Monotone(m: nat, n: nat)
    requires m <= n
    ensures Pow2(m) <= Pow2(n)
    decreases n
  {
    if m < n {
      Pow2Monotone(m, n - 1);
    }
  }

  /** Exponential backoff `min(baseDelay * 2^attempt, 30000)`. */
  function GetRetryDelay(attempt: nat, baseDelay: int := 1000): (r: int)
    ensures r <= MaxRetryDelay
    ensures r == MaxRetryDelay || r == baseDelay * Pow2(attempt)
    ensures r < MaxRetryDelay <==> baseDelay * Pow2(attempt) < MaxRetryDelay
  {
    Min(baseDelay * Pow2(attempt), MaxRetryDelay)
  }

  /** With a non-negative base the delay never shrinks as attempts grow. */
  lemma RetryDelayMonotone(a: nat, b: nat, baseDelay: int)
    requires a <= b && baseDelay >= 0
    ensures GetRetryDelay(a, baseDelay) <= GetRetryDelay(b, baseDelay)
  {
    Pow2Monotone(a, b);
    ScaleMonotone(baseDelay, Pow2(a), Pow2(b));
  }

  lemma ScaleMonotone(c: int, x: int, y: int)
    requires c >= 0 && x <= y
    ensures c * x <= c * y
  {
    assert c * y == c * x + c * (y - x);
  }

  /** A positive base is the delay of the first retry, doubling from there. */
  lemma RetryDelayDoubles(a: nat, baseDelay: int)
    requires baseDelay > 0 && 2 * baseDelay * Pow2(a) < MaxRetryDelay
    ensures GetRetryDelay(0, baseDelay) == baseDelay
    ensures GetRetryDelay(a + 1, baseDelay) == 2 * GetRetryDelay(a, baseDelay)
  {
    assert Pow2(a + 1) == 2 * Pow2(a);
    assert baseDelay * Pow2(a + 1) == 2 * baseDelay * Pow2(a);
  }

  lemma RetryDelayExamples()
    ensures GetRetryDelay(0) == 1000 && GetRetryDelay(1) == 2000 && GetRetryDelay(2) == 4000
    ensures GetRetryDelay(3) == 8000 && GetRetryDelay(4) == 16000
    ensures GetRetryDelay(10) == 30000 && GetRetryDelay(20) == 30000
    ensures GetRetryDelay(0, 500) == 500 && GetRetryDelay(2, 500) == 2000
  {
    assert Pow2(4) == 16;
    assert Pow2(10) == 1024;
    Pow2Monotone(10, 20);
  }

  /** An unavailable service is retried on attempts 0, 1 and 2, not on 3. */
  lemma UnavailableRetriedThreeTimes(message: string, raw: string)
    ensures var e := Connect(Unavailable, message, raw);
      ShouldRetry(e, 0) && ShouldRetry(e, 1) && ShouldRetry(e, 2) && !ShouldRetry(e, 3)
    ensures !ShouldRetry(Connect(NotFound, message, raw), 1)
  {
  }

  /** The message heuristic, on the messages the tests use. */
  lemma NetworkMessageExamples()
    ensures IsNetworkError(Plain("Network connection failed"))
    ensures IsNetworkError(Plain("Request timeout"))
    ensures ShouldRetry(Plain("Network connection failed"), 1)
    ensures !IsAuthError(Plain("unauthenticated"))
  {
    assert OccursAt(ToLower("Network connection failed"), NetworkHints[0], 0);
    assert OccursAt(ToLower("Request timeout"), NetworkHints[1], 8);
  }

  /** The single log call `logApiError` makes. */
  datatype LogCall = LogCall(level: Level, message: string, context: Context)

  function ApiErrorContext(error: ApiError, context: Option<Context>): Context {
    var base := context.GetOr(map[]);
    if error.Connect? then base["code" := Num(CodeNumber(error.code))]["rawMessage" := Str(error.rawMessage)]
    else base
  }

  /** A warning for an auth error, an error entry otherwise; a Connect
      error's code and raw message are added to the caller's context, and an
      error entry also carries the user-facing message. Every other key of
      the caller's context is kept: `code` and `rawMessage` when the error is
      not a Connect error, `message` on a warning. */
  function ApiErrorLogCall(error: ApiError, context: Option<Context>): (r: LogCall)
    ensures r.level == Warning <==> IsAuthError(error)
    ensures r.level == Error <==> !IsAuthError(error)
    ensures r.message == (if IsAuthError(error) then "Authentication error" else "API error")
    ensures error.Connect? ==> "code" in r.context && r.context["code"] == Num(CodeNumber(error.code))
    ensures error.Connect? ==> "rawMessage" in r.context && r.context["rawMessage"] == Str(error.rawMessage)
    ensures !IsAuthError(error) ==> "message" in r.context && r.context["message"] == Str(GetErrorMessage(error))
    ensures forall k :: k in context.GetOr(map[]) && k !in {"code", "rawMessage", "message"} ==>
      k in r.context && r.context[k] == context.GetOr(map[])[k]
    ensures r.context.Keys <= context.GetOr(map[]).Keys + {"code", "rawMessage", "message"}
    ensures !error.Connect? ==> forall k :: k in context.GetOr(map[]) && k != "message" ==>
      k in r.context && r.context[k] == context.GetOr(map[])[k]
    ensures !error.Connect? ==> r.context.Keys <= context.GetOr(map[]).Keys + {"message"}
    ensures IsAuthError(error) ==> forall k :: k in context.GetOr(map[]) && k != "code" && k != "rawMessage" ==>
      k in r.context && r.context[k] == context.GetOr(map[])[k]
    ensures IsAuthError(error) ==> r.context.Keys <= context.GetOr(map[]).Keys + {"code", "rawMessage"}
  {
    var errorContext := ApiErrorContext(error, context);
    if IsAuthError(error) then LogCall(Warning, "Authentication error", errorContext)
    else LogCall(Error, "API error", errorContext["message" := Str(GetErrorMessage(error))])
  }

  /** `logApiError`: exactly one entry is appended to the log. */
  method LogApiError(log: LogBuffer, error: ApiError, context: Option<Context>, now: int)
    requires log.Valid()
    modifies log
    ensures log.Valid()
    ensures var call := ApiErrorLogCall(error, context);
      log.entries == Appended(old(log.entries), Entry(call.level, call.message, Some(call.context), now))
  {
    var message := GetErrorMessage(error);
    var errorContext := ApiErrorContext(error, context);
    if IsAuthError(error) {
      log.LogWarning("Authentication error", Some(errorContext), now);
    } else {
      log.LogError("API error", Some(errorContext["message" := Str(message)]), now);
    }
  }
}

/** The external transit client of backend/src/app.js: `fetchWithRetry`
    and the two tracked fetches built on it. The network is an oracle:
    `replies(k)` is what the k-th attempt of one logical call gets back. */
module Client {
  import opened Common
  import opened Transit
  import Quota

  const DefaultMaxRetries: int := 3
  const DefaultInitialDelay: int := 1000

  /** What one `fetch` attempt yields: it throws (connection failure,
      timeout), or it gets a response whose body is either parsed JSON or a
      parse failure with its message. */
  datatype Reply<J> = Thrown(message: string) | Response(status: nat, body: Result<J, string>)

  /** The error a failed call rethrows. `NothingThrown` is the `undefined`
      that `throw lastError` throws when no attempt was made. */
  datatype FetchError =
    | NetworkError(message: string)
    | HttpError(status: nat)
    | ParseError(message: string)
    | NothingThrown

  /** `response.ok`. */
  predicate IsOkStatus(status: nat)
  {
    200 <= status <= 299
  }

  /** One attempt: a throw, then `!response.ok`, then `response.json()`. */
  function AttemptResult<J>(reply: Reply<J>): (r: Result<J, FetchError>)
    ensures r.Ok? <==> reply.Response? && IsOkStatus(reply.status) && reply.body.Ok?
    ensures reply.Response? && !IsOkStatus(reply.status) ==> r == Err(HttpError(reply.status))
  {
    match reply
    case Thrown(m) => Err(NetworkError(m))
    case Response(status, body) =>
      if !IsOkStatus(status) then Err(HttpError(status))
      else match body
        case Ok(j) => Ok(j)
        case Err(m) => Err(ParseError(m))
  }

  function DigitChar(d: nat): (c: char)
    requires d < 10
    ensures '0' <= c <= '9'
  {
    "0123456789"[d]
  }

  /** Decimal text of a natural number, as `${n}` renders it. */
  function NatToString(n: nat): (s: string)
    ensures |s| > 0
    ensures forall i | 0 <= i < |s| :: '0' <= s[i] <= '9'
    decreases n
  {
    if n < 10 then [DigitChar(n)] else NatToString(n / 10) + [DigitChar(n % 10)]
  }

  const HttpErrorPrefix: string := "HTTP error! status: "

  /** `error.message` of each error kind (`undefined` has none; the callers
      never see it, see DefaultRetryRethrowsAnAttemptError). */
  function Message(e: FetchError): string
  {
    match e
    case NetworkError(m) => m
    case HttpError(status) => HttpErrorPrefix + NatToString(status)
    case ParseError(m) => m
    case NothingThrown => ""
  }

  /** The result of a call, how many attempts it made and the sleeps it
      performed between them, in order. */
  datatype RetryOutcome<J> = RetryOutcome(result: Result<J, FetchError>, attempts: nat, sleeps: seq<int>)

  /** `initialDelay * Math.pow(2, attempt)`, by repeated doubling. */
  function BackoffDelay(initialDelay: int, attempt: nat): int
  {
    if attempt == 0 then initialDelay else 2 * BackoffDelay(initialDelay, attempt - 1)
  }

  /** The doubling is the power of two of the source. */
  lemma {:induction false} BackoffDelayIsPower(initialDelay: int, attempt: nat)
    ensures BackoffDelay(initialDelay, attempt) == initialDelay * Pow2(attempt)
  {
    if attempt > 0 {
      BackoffDelayIsPower(initialDelay, attempt - 1);
      assert initialDelay * Pow2(attempt) == 2 * (initialDelay * Pow2(attempt - 1));
    }
  }

  /** The backoff delays `initialDelay * 2^k` for `lo <= k < hi`. */
  function Backoff(initialDelay: int, lo: nat, hi: int): (r: seq<int>)
    ensures |r| == if lo < hi then hi - lo else 0
    ensures forall k | 0 <= k < |r| :: r[k] == BackoffDelay(initialDelay, lo + k)
    decreases if lo < hi then hi - lo else 0
  {
    if lo >= hi then [] else [BackoffDelay(initialDelay, lo)] + Backoff(initialDelay, lo + 1, hi)
  }

  /** The retry loop from attempt `attempt` on, `lastError` being the error
      of the previous attempt. */
  function RetryFrom<J>(replies: nat -> Reply<J>, maxRetries: int, initialDelay: int, attempt: nat, lastError: FetchError): (o: RetryOutcome<J>)
    ensures attempt < maxRetries ==> attempt < o.attempts <= maxRetries
    ensures attempt >= maxRetries ==> o == RetryOutcome(Err(lastError), attempt, [])
    decreases if attempt < maxRetries then maxRetries - attempt else 0
  {
    if attempt >= maxRetries then RetryOutcome(Err(lastError), attempt, [])
    else
      match AttemptResult(replies(attempt))
      case Ok(data) => RetryOutcome(Ok(data), attempt + 1, [])
      case Err(e) =>
        var rest := RetryFrom(replies, maxRetries, initialDelay, attempt + 1, e);
        var pause := if attempt < maxRetries - 1 then [BackoffDelay(initialDelay, attempt)] else [];
        RetryOutcome(rest.result, rest.attempts, pause + rest.sleeps)
  }

  /** What the retry loop from attempt `attempt` on yields: the first
      success, or the last attempt's error after every attempt failed, with
      the backoff delays of the failed attempts but the last. */
  lemma {:induction false} RetryFromOutcome<J>(replies: nat -> Reply<J>, maxRetries: int, initialDelay: int, attempt: nat, lastError: FetchError)
    ensures var o := RetryFrom(replies, maxRetries, initialDelay, attempt, lastError);
      && (o.result.Ok? ==> AttemptResult(replies(o.attempts - 1)) == o.result)
      && (o.result.Ok? ==> forall k | attempt <= k < o.attempts - 1 :: AttemptResult(replies(k)).Err?)
      && (o.result.Err? ==> forall k | attempt <= k < maxRetries :: AttemptResult(replies(k)).Err?)
      && (o.result.Err? && attempt < maxRetries ==>
            o.attempts == maxRetries && o.result == AttemptResult(replies(maxRetries - 1)))
      && o.sleeps == Backoff(initialDelay, attempt, if o.result.Ok? then o.attempts - 1 else maxRetries - 1)
    decreases if attempt < maxRetries then maxRetries - attempt else 0
  {
    if attempt < maxRetries {
      match AttemptResult(replies(attempt))
      case Ok(data) =>
      case Err(e) =>
        RetryFromOutcome(replies, maxRetries, initialDelay, attempt + 1, e);
    }
  }

  /** `fetchWithRetry(url, options, maxRetries, initialDelay)`: at most
      `maxRetries` attempts, none at all when `maxRetries` is not positive. */
  function Retry<J>(replies: nat -> Reply<J>, maxRetries: int, initialDelay: int): (o: RetryOutcome<J>)
    ensures o.attempts <= if maxRetries > 0 then maxRetries else 0
    ensures maxRetries > 0 ==> o.attempts > 0
    ensures maxRetries <= 0 ==> o == RetryOutcome(Err(NothingThrown), 0, [])
  {
    RetryFrom(replies, maxRetries, initialDelay, 0, NothingThrown)
  }

  /** The promise of `fetchWithRetry`: the first success is returned;
      otherwise the last attempt's error is rethrown; `initialDelay * 2^k`
      is slept after the k-th failed attempt unless it was the last one. */
  lemma RetryOutcomeSpec<J>(replies: nat -> Reply<J>, maxRetries: int, initialDelay: int)
    ensures var o := Retry(replies, maxRetries, initialDelay);
      && (o.result.Ok? <==> exists k :: 0 <= k < maxRetries && AttemptResult(replies(k)).Ok?)
      && (o.result.Ok? ==> o.result == AttemptResult(replies(o.attempts - 1)))
      && (o.result.Ok? ==> forall k | 0 <= k < o.attempts - 1 :: AttemptResult(replies(k)).Err?)
      && (o.result.Err? && maxRetries > 0 ==>
            o.attempts == maxRetries && o.result == AttemptResult(replies(maxRetries - 1)))
      && o.sleeps == Backoff(initialDelay, 0, if o.result.Ok? then o.attempts - 1 else maxRetries - 1)
  {
    RetryFromOutcome(replies, maxRetries, initialDelay, 0, NothingThrown);
  }

  /** With the defaults (three attempts from 1000 ms), a call whose three
      attempts all fail sleeps 1000 ms then 2000 ms, and nothing after the
      last attempt. */
  lemma DefaultBackoffSleeps<J>(replies: nat -> Reply<J>)
    requires forall k | 0 <= k < 3 :: AttemptResult(replies(k)).Err?
    ensures Retry(replies, DefaultMaxRetries, DefaultInitialDelay).sleeps == [1000, 2000]
    ensures Retry(replies, DefaultMaxRetries, DefaultInitialDelay).attempts == 3
  {
    RetryOutcomeSpec(replies, DefaultMaxRetries, DefaultInitialDelay);
    var o := Retry(replies, DefaultMaxRetries, DefaultInitialDelay);
    assert o.result.Err?;
  }

  /** With the defaults, a failing call always rethrows a real error from one
      of its attempts, never `undefined`. */
  lemma DefaultRetryRethrowsAnAttemptError<J>(replies: nat -> Reply<J>)
    ensures Retry(replies, DefaultMaxRetries, DefaultInitialDelay).result.Err? ==>
              Retry(replies, DefaultMaxRetries, DefaultInitialDelay).result.error != NothingThrown
  {
    RetryOutcomeSpec(replies, DefaultMaxRetries, DefaultInitialDelay);
  }

  /** One failed attempt of the loop: the remaining outcome is the next
      attempt's, with the pause slept before it. */
  lemma RetryAfterFailure<J>(replies: nat -> Reply<J>, maxRetries: int, initialDelay: int, attempt: nat,
                             lastError: FetchError, e: FetchError, whole: RetryOutcome<J>, before: seq<int>, after: seq<int>)
    requires attempt < maxRetries && AttemptResult(replies(attempt)) == Err(e)
    requires var rest := RetryFrom(replies, maxRetries, initialDelay, attempt, lastError);
      whole == RetryOutcome(rest.result, rest.attempts, before + rest.sleeps)
    requires after == before + if attempt < maxRetries - 1 then [BackoffDelay(initialDelay, attempt)] else []
    ensures var rest := RetryFrom(replies, maxRetries, initialDelay, attempt + 1, e);
      whole == RetryOutcome(rest.result, rest.attempts, after + rest.sleeps)
  {
    var next := RetryFrom(replies, maxRetries, initialDelay, attempt + 1, e);
    var pause := if attempt < maxRetries - 1 then [BackoffDelay(initialDelay, attempt)] else [];
    assert before + (pause + next.sleeps) == after + next.sleeps;
  }

  /** The loop of `fetchWithRetry`, updating `lastError` as it goes. */
  method FetchWithRetry<J>(replies: nat -> Reply<J>, maxRetries: int, initialDelay: int)
    returns (result: Result<J, FetchError>, attempts: nat, sleeps: seq<int>)
    ensures RetryOutcome(result, attempts, sleeps) == Retry(replies, maxRetries, initialDelay)
  {
    var lastError := NothingThrown;
    var attempt: nat := 0;
    sleeps := [];
    ghost var whole := RetryFrom(replies, maxRetries, initialDelay, 0, NothingThrown);
    while attempt < maxRetries
      invariant attempt == 0 || attempt <= maxRetries
      invariant var rest := RetryFrom(replies, maxRetries, initialDelay, attempt, lastError);
        whole == RetryOutcome(rest.result, rest.attempts, sleeps + rest.sleeps)
      decreases maxRetries - attempt
    {
      match AttemptResult(replies(attempt)) {
        case Ok(data) =>
          return Ok(data), attempt + 1, sleeps;
        case Err(e) =>
          ghost var before := sleeps;
          if attempt < maxRetries - 1 {
            sleeps := sleeps + [BackoffDelay(initialDelay, attempt)];
          }
          RetryAfterFailure(replies, maxRetries, initialDelay, attempt, lastError, e, whole, before, sleeps);
          lastError := e;
          attempt := attempt + 1;
      }
    }
    result, attempts := Err(lastError), attempt;
  }

  /** A message that contains the phrase the collection tick looks for. */
  predicate IsQuotaMessage(message: string)
  {
    Contains(message, "API quota exceeded")
  }

  /** An HTTP error status (a 429 included) never reads as a quota error:
      its message is the fixed prefix and the digits of the status. */
  lemma HttpErrorIsNotQuotaError(status: nat)
    ensures !IsQuotaMessage(Message(HttpError(status)))
  {
    var m := Message(HttpError(status));
    if IsQuotaMessage(m) {
      ContainsNeedsFirstChar(m, "API quota exceeded");
    }
  }

  /** `fetchStops`: count the request, then fetch the nearby-stops listing
      with the active key. */
  method FetchStops(gov: Quota.QuotaGovernor, replies: nat -> Reply<NearbyStops>)
    returns (r: Result<NearbyStops, FetchError>, accessId: string)
    requires gov.Valid()
    modifies gov
    ensures gov.Valid() && gov.State() == Quota.Tracked(old(gov.State()))
    ensures accessId == gov.currentApiKey
    ensures r == Retry(replies, DefaultMaxRetries, DefaultInitialDelay).result
  {
    gov.TrackApiRequest();
    accessId := gov.currentApiKey;
    var attempts, sleeps;
    r, attempts, sleeps := FetchWithRetry(replies, DefaultMaxRetries, DefaultInitialDelay);
  }

  /** What `fetchDepartures(id)` resolves to, for each stop id. */
  type Boards = string -> Result<Board, FetchError>

  /** `boards(id)` is what `fetchDepartures(id)` resolves to: the retry
      loop with the default settings over the replies for that stop. */
  ghost predicate Fetches(boards: Boards, replies: string -> nat -> Reply<Board>)
  {
    forall id {:trigger replies(id)} :: boards(id) == Retry(replies(id), DefaultMaxRetries, DefaultInitialDelay).result
  }

  /** `fetchDepartures(stopId)`: count the request once, however many
      attempts the retry loop then makes, and fetch the board with the key
      that is active after counting. */
  method FetchDepartures(gov: Quota.QuotaGovernor, replies: nat -> Reply<Board>)
    returns (r: Result<Board, FetchError>, accessId: string)
    requires gov.Valid()
    modifies gov
    ensures gov.Valid() && gov.State() == Quota.Tracked(old(gov.State()))
    ensures accessId == gov.currentApiKey
    ensures r == Retry(replies, DefaultMaxRetries, DefaultInitialDelay).result
  {
    gov.TrackApiRequest();
    accessId := gov.currentApiKey;
    var attempts, sleeps;
    r, attempts, sleeps := FetchWithRetry(replies, DefaultMaxRetries, DefaultInitialDelay);
  }
}

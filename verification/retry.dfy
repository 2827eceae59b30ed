/**
 * RetryableHTTPRequest (internal/utils/retryable-http-request.go): one logical
 * request made in up to MaxRetries + 1 attempts. Each response is classified
 * as success (2xx), retryable (transport error or 429) or terminal (any other
 * status); between attempts the call waits a fixed two seconds, and a context
 * found cancelled during that wait ends the call.
 *
 * The HTTP client is replaced by `attemptAt`, the outcome of each attempt, and
 * the context by `cancelledAtWait`, the index of the wait during which it is
 * found done (None when it never is).
 */
module RetryableHttp {
  import opened Models
  import opened GoStrings

  /** time.Duration counts nanoseconds. */
  const Second: int := 1_000_000_000
  /** The wait between attempts; the configured base and maximum delays play no part in it. */
  const RetryDelay: int := 2 * Second

  const UserAgent: string := "Mozilla/5.0 (Windows NT 10.0; Win64; x64) AppleWebKit/537.36 (KHTML, like Gecko) Chrome/91.0.4472.124 Safari/537.36"

  datatype RetryConfig = RetryConfig(maxRetries: int, baseDelay: int, maxDelay: int)

  /** What client.Do gives for one attempt. */
  datatype Attempt = TransportError(message: string) | Status(code: int)

  /** The error kept in lastErr. */
  datatype Cause = Transport(message: string) | RateLimited(code: int)

  /** How a call ends. */
  datatype RetryResult =
    | Succeeded(code: int)            // the 2xx response is returned
    | Terminal(code: int)             // "request failed <code>: ..."
    | Exhausted(last: Option<Cause>)  // "all retry attempts failed, last error: ..."
    | Cancelled                       // ctx.Err()
    | InvalidRequest                  // "failed to create request: ..."

  /**
   * A finished call: how it ended, how many attempts reached the client, the
   * delay of every wait begun, and the headers each attempt carried.
   */
  datatype RetryRun = RetryRun(result: RetryResult, attempts: nat, waits: seq<int>, sent: seq<map<string, string>>)

  predicate IsSuccess(a: Attempt) {
    a.Status? && 200 <= a.code < 300
  }

  predicate IsRetryable(a: Attempt) {
    a.TransportError? || a.code == 429
  }

  function CauseOf(a: Attempt): Cause
    requires IsRetryable(a)
  {
    if a.TransportError? then Transport(a.message) else RateLimited(a.code)
  }

  /** The number of attempts the loop `for attempt := 0; attempt <= MaxRetries; attempt++` allows. */
  function AttemptLimit(maxRetries: int): nat {
    if maxRetries < 0 then 0 else maxRetries + 1
  }

  // ----- request headers ---------------------------------------------------------

  /** A caller-supplied header, read as header.Get("Key") and header.Get("Value"). */
  datatype HeaderEntry = HeaderEntry(key: string, value: string)

  /** A byte textproto accepts in a header name. */
  predicate IsTokenChar(c: char) {
    IsAsciiLetter(c) || IsDigit(c) || c in "!#$%&'*+-.^_`|~"
  }

  /** Upper-cases the first letter and every letter after '-', lower-cases the others. */
  function FoldCase(s: string, upper: bool): (r: string)
    ensures |r| == |s|
  {
    if s == [] then []
    else
      var c := s[0];
      var d :=
        if upper && 'a' <= c <= 'z' then ((c as int) - 32) as char
        else if !upper && 'A' <= c <= 'Z' then ((c as int) + 32) as char
        else c;
      [d] + FoldCase(s[1..], d == '-')
  }

  /** Every character is one a header name may hold. */
  predicate AllTokenChars(s: string) {
    s == [] || (IsTokenChar(s[0]) && AllTokenChars(s[1..]))
  }

  /**
   * textproto.CanonicalMIMEHeaderKey, which Header.Set applies to its key: a
   * key holding any character outside the token set is left as it is.
   */
  function CanonicalHeaderKey(s: string): string {
    if AllTokenChars(s) then FoldCase(s, true) else s
  }

  lemma {:induction false} FoldCaseIdempotent(s: string, upper: bool)
    ensures FoldCase(FoldCase(s, upper), upper) == FoldCase(s, upper)
  {
    if s != [] {
      var r := FoldCase(s, upper);
      var d := r[0];
      assert r[1..] == FoldCase(s[1..], d == '-');
      FoldCaseIdempotent(s[1..], d == '-');
    }
  }

  lemma {:induction false} FoldCaseKeepsTokens(s: string, upper: bool)
    requires AllTokenChars(s)
    ensures AllTokenChars(FoldCase(s, upper))
  {
    if s != [] {
      var r := FoldCase(s, upper);
      var c := s[0];
      if upper && 'a' <= c <= 'z' {
        assert 'A' <= r[0] <= 'Z';
      } else if !upper && 'A' <= c <= 'Z' {
        assert 'a' <= r[0] <= 'z';
      } else {
        assert r[0] == c;
      }
      FoldCaseKeepsTokens(s[1..], r[0] == '-');
      assert r[1..] == FoldCase(s[1..], r[0] == '-');
    }
  }

  /** Canonicalising a header name twice changes nothing more. */
  lemma CanonicalHeaderKeyIdempotent(s: string)
    ensures CanonicalHeaderKey(CanonicalHeaderKey(s)) == CanonicalHeaderKey(s)
  {
    if AllTokenChars(s) {
      FoldCaseKeepsTokens(s, true);
      FoldCaseIdempotent(s, true);
    }
  }

  /** The headers of one attempt: User-Agent first, then every caller entry set in order. */
  function RequestHeaders(entries: seq<HeaderEntry>): map<string, string>
  {
    if entries == [] then map["User-Agent" := UserAgent]
    else
      var n := |entries| - 1;
      RequestHeaders(entries[..n])[CanonicalHeaderKey(entries[n].key) := entries[n].value]
  }

  /** The header names sent are User-Agent and the canonical forms of the caller's keys. */
  lemma {:induction false} RequestHeadersKeys(entries: seq<HeaderEntry>, k: string)
    ensures k in RequestHeaders(entries) <==>
      k == "User-Agent" || exists i :: 0 <= i < |entries| && CanonicalHeaderKey(entries[i].key) == k
  {
    if entries != [] {
      var n := |entries| - 1;
      var init := entries[..n];
      RequestHeadersKeys(init, k);
      assert forall i :: 0 <= i < n ==> init[i] == entries[i];
      if exists i :: 0 <= i < |entries| && CanonicalHeaderKey(entries[i].key) == k {
        var i :| 0 <= i < |entries| && CanonicalHeaderKey(entries[i].key) == k;
        if i < n {
          assert CanonicalHeaderKey(init[i].key) == k;
        }
      }
    }
  }

  /** For each header name, the last caller entry that sets it gives its value. */
  lemma {:induction false} RequestHeadersLastWins(entries: seq<HeaderEntry>, i: nat)
    requires i < |entries|
    requires forall j :: i < j < |entries| ==> CanonicalHeaderKey(entries[j].key) != CanonicalHeaderKey(entries[i].key)
    ensures CanonicalHeaderKey(entries[i].key) in RequestHeaders(entries)
    ensures RequestHeaders(entries)[CanonicalHeaderKey(entries[i].key)] == entries[i].value
  {
    var n := |entries| - 1;
    if i < n {
      var init := entries[..n];
      assert forall j :: i <= j < n ==> init[j] == entries[j];
      assert CanonicalHeaderKey(entries[n].key) != CanonicalHeaderKey(entries[i].key);
      RequestHeadersLastWins(init, i);
    }
  }

  /** Unless a caller entry sets it, User-Agent keeps the fixed browser string. */
  lemma {:induction false} RequestHeadersDefaultAgent(entries: seq<HeaderEntry>)
    requires forall i :: 0 <= i < |entries| ==> CanonicalHeaderKey(entries[i].key) != "User-Agent"
    ensures "User-Agent" in RequestHeaders(entries)
    ensures RequestHeaders(entries)["User-Agent"] == UserAgent
  {
    if entries != [] {
      var n := |entries| - 1;
      var init := entries[..n];
      assert forall i :: 0 <= i < n ==> init[i] == entries[i];
      assert CanonicalHeaderKey(entries[n].key) != "User-Agent";
      RequestHeadersDefaultAgent(init);
    }
  }

  /** The header-setting lines of one attempt. */
  method SetRequestHeaders(entries: seq<HeaderEntry>) returns (h: map<string, string>)
    ensures h == RequestHeaders(entries)
  {
    h := map["User-Agent" := UserAgent];
    var n := 0;
    while n < |entries|
      invariant 0 <= n <= |entries|
      invariant h == RequestHeaders(entries[..n])
    {
      var e := entries[n];
      h := h[CanonicalHeaderKey(e.key) := e.value];
      assert entries[..n + 1][..n] == entries[..n];
      n := n + 1;
    }
    assert entries[..n] == entries;
  }

  // ----- the attempt loop ----------------------------------------------------------

  /**
   * The attempt/classify/wait loop. `requestValid` says whether
   * http.NewRequestWithContext accepts the method and URL.
   */
  method RetryableHttpRequest(
    config: RetryConfig, requestValid: bool, callerHeaders: seq<HeaderEntry>,
    attemptAt: nat -> Attempt, cancelledAtWait: Option<nat>)
    returns (run: RetryRun)
    // never more than MaxRetries + 1 attempts, each carrying the same headers
    ensures run.attempts <= AttemptLimit(config.maxRetries)
    ensures |run.sent| == run.attempts
    ensures forall i :: 0 <= i < run.attempts ==> run.sent[i] == RequestHeaders(callerHeaders)
    // every wait lasts two seconds, whatever the configured delays
    ensures forall i :: 0 <= i < |run.waits| ==> run.waits[i] == RetryDelay
    // only a retryable outcome is ever followed by another attempt
    ensures forall i :: 0 <= i < run.attempts - 1 ==> IsRetryable(attemptAt(i))
    // a cancelled wait ends the call at once
    ensures cancelledAtWait.Some? && cancelledAtWait.value < |run.waits| ==>
      run.result == Cancelled && cancelledAtWait.value == |run.waits| - 1
    ensures run.result.Succeeded? ==>
      run.attempts >= 1 && IsSuccess(attemptAt(run.attempts - 1))
      && run.result.code == attemptAt(run.attempts - 1).code && |run.waits| == run.attempts - 1
    ensures run.result.Terminal? ==>
      run.attempts >= 1 && attemptAt(run.attempts - 1).Status?
      && !IsSuccess(attemptAt(run.attempts - 1)) && !IsRetryable(attemptAt(run.attempts - 1))
      && run.result.code == attemptAt(run.attempts - 1).code && |run.waits| == run.attempts - 1
    ensures run.result.Cancelled? ==>
      1 <= run.attempts < AttemptLimit(config.maxRetries) && IsRetryable(attemptAt(run.attempts - 1))
      && |run.waits| == run.attempts && cancelledAtWait == Some(run.attempts - 1)
    ensures run.result.Exhausted? ==>
      run.attempts == AttemptLimit(config.maxRetries)
      && (forall i :: 0 <= i < run.attempts ==> IsRetryable(attemptAt(i)))
      && |run.waits| == (if config.maxRetries < 0 then 0 else config.maxRetries)
      && run.result.last == (if run.attempts == 0 then None else Some(CauseOf(attemptAt(run.attempts - 1))))
    ensures run.result.InvalidRequest? <==> !requestValid && config.maxRetries >= 0
    ensures run.result.InvalidRequest? ==> run.attempts == 0 && run.waits == []
  {
    var attempt := 0;
    var lastErr: Option<Cause> := None;
    var waits: seq<int> := [];
    var sent: seq<map<string, string>> := [];
    while attempt <= config.maxRetries
      invariant 0 <= attempt <= AttemptLimit(config.maxRetries)
      invariant !requestValid ==> attempt == 0
      invariant |sent| == attempt
      invariant forall i :: 0 <= i < attempt ==> sent[i] == RequestHeaders(callerHeaders)
      invariant forall i :: 0 <= i < attempt ==> IsRetryable(attemptAt(i))
      invariant |waits| == (if attempt == 0 || attempt <= config.maxRetries then attempt else attempt - 1)
      invariant forall i :: 0 <= i < |waits| ==> waits[i] == RetryDelay
      invariant cancelledAtWait.None? || cancelledAtWait.value >= |waits|
      invariant lastErr == (if attempt == 0 then None else Some(CauseOf(attemptAt(attempt - 1))))
    {
      if !requestValid {
        return RetryRun(InvalidRequest, attempt, waits, sent);
      }
      var headers := SetRequestHeaders(callerHeaders);
      sent := sent + [headers];
      var outcome := attemptAt(attempt);
      match outcome {
        case TransportError(message) =>
          lastErr := Some(Transport(message));
        case Status(code) =>
          if 200 <= code < 300 {
            return RetryRun(Succeeded(code), attempt + 1, waits, sent);
          } else if code == 429 {
            lastErr := Some(RateLimited(code));
          } else {
            return RetryRun(Terminal(code), attempt + 1, waits, sent);
          }
      }
      if attempt < config.maxRetries {
        var delay := RetryDelay;
        waits := waits + [delay];
        if cancelledAtWait == Some(|waits| - 1) {
          return RetryRun(Cancelled, attempt + 1, waits, sent);
        }
      }
      attempt := attempt + 1;
    }
    return RetryRun(Exhausted(lastErr), attempt, waits, sent);
  }
}

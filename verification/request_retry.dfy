/** The request path of the API manager: one attempt (`fetchWithTimeout`,
    the `response.ok` check, `response.json()`), the retry loop with
    exponential backoff, the option merge of `makeRequest`, and the ordered
    substring classifier `handleError`.

    The network, the abort timer and `sleep` are replaced by a scripted
    environment: `outcomes[k - 1]` is what `fetch` does on attempt `k`, and
    the backoff waits are recorded instead of slept. */
module RequestRetry {
  import opened JsValues
  import opened JsStrings
  import opened Config

  /** What `response.json()` does with the body. */
  datatype Body = Parsed(value: JsValue) | Unparseable(message: string)

  datatype HttpResponse = HttpResponse(status: nat, statusText: string, body: Body)

  /** What the `fetch` of one attempt does: it answers, it is aborted by the
      per-attempt timer, or it rejects on its own (the browser's network
      failure, whose message the engine chooses). */
  datatype FetchOutcome =
    | Responded(response: HttpResponse)
    | Aborted
    | Rejected(message: string)

  /** The error `fetchWithTimeout` throws when its timer aborts the request;
      written as two parts so that its leading word is visible to proofs. */
  const TIMEOUT_MESSAGE: string := "Timeout" + TIMEOUT_DETAIL
  const TIMEOUT_DETAIL: string := ": A requisição demorou muito para responder"

  /** `response.ok`. */
  predicate IsOk(r: HttpResponse) {
    200 <= r.status <= 299
  }

  /** `fetchWithTimeout`: an abort surfaces as an error whose message names
      the timeout; any other rejection is rethrown as it is. */
  function FetchWithTimeout(o: FetchOutcome): (r: Result<HttpResponse>)
    ensures r.Ok? <==> o.Responded?
    ensures r.Ok? ==> r.value == o.response
    ensures o.Aborted? ==> TIMEOUT_MESSAGE <= r.message
    ensures o.Rejected? ==> r.message == o.message
  {
    match o
    case Responded(resp) => Ok(resp)
    case Aborted => Err(TIMEOUT_MESSAGE)
    case Rejected(m) => Err(m)
  }

  /** The message thrown for a response that is not ok. */
  function HttpErrorMessage(status: nat, statusText: string): string {
    HttpPrefix(status) + statusText
  }

  /** The body of the `try` block of one attempt: fetch, reject a response
      that is not ok, decode the body. */
  function AttemptOnce(o: FetchOutcome): (r: Result<JsValue>)
    ensures r.Ok? <==> o.Responded? && IsOk(o.response) && o.response.body.Parsed?
    ensures r.Ok? ==> r.value == o.response.body.value
    ensures o.Responded? && !IsOk(o.response) ==>
              r == Err(HttpErrorMessage(o.response.status, o.response.statusText))
    ensures o.Responded? && IsOk(o.response) && o.response.body.Unparseable? ==>
              r == Err(o.response.body.message)
    ensures o.Aborted? || o.Rejected? ==> r == Err(FetchWithTimeout(o).message)
  {
    match FetchWithTimeout(o)
    case Err(m) => Err(m)
    case Ok(resp) =>
      if !IsOk(resp) then Err(HttpErrorMessage(resp.status, resp.statusText))
      else match resp.body
        case Parsed(v) => Ok(v)
        case Unparseable(m) => Err(m)
  }

  function Pow2(n: nat): (p: nat)
    ensures p >= 1
  {
    if n == 0 then 1 else 2 * Pow2(n - 1)
  }

  /** `retryDelay * Math.pow(2, attempt - 1)`: the wait after a failed
      `attempt` when another attempt follows. */
  function BackoffDelay(retryDelay: int, attempt: nat): int
    requires attempt >= 1
  {
    retryDelay * Pow2(attempt - 1)
  }

  /** The first `n` backoff waits of a run, in the order they are slept:
      the wait after failed attempt `k` is `BackoffDelay(retryDelay, k)`. */
  function DoublingWaits(retryDelay: int, n: nat): (w: seq<int>)
    ensures |w| == n
  {
    if n == 0 then [] else DoublingWaits(retryDelay, n - 1) + [BackoffDelay(retryDelay, n)]
  }

  /** Waits that are the backoff delays of attempts `1, 2, ...` in order
      are the doubling sequence. */
  lemma {:induction false} WaitsAreDoubling(w: seq<int>, retryDelay: int)
    requires forall i :: 0 <= i < |w| ==> w[i] == BackoffDelay(retryDelay, 1 + i)
    ensures w == DoublingWaits(retryDelay, |w|)
  {
    if w != [] {
      var n := |w|;
      var init := w[..n - 1];
      assert forall i :: 0 <= i < |init| ==> init[i] == w[i];
      WaitsAreDoubling(init, retryDelay);
      assert w == init + [w[n - 1]];
    }
  }

  /** What `executeRequestWithRetry` settles with: the decoded data, or the
      thrown `lastError` (`None` when no attempt ran and `undefined` is
      thrown). */
  datatype RetryResult = Returned(data: JsValue) | Threw(error: Option<string>)

  /** A whole run of the retry loop: its result, how many attempts were
      made, and the backoff waits in the order they were slept. */
  datatype RetryRun = RetryRun(result: RetryResult, attempts: nat, waits: seq<int>)

  /** The loop from `attempt` on, with `lastError` caught so far. */
  function RetryFrom(outcomes: seq<FetchOutcome>, retries: int, retryDelay: int,
                     attempt: nat, lastError: Option<string>): (run: RetryRun)
    requires 1 <= attempt
    requires retries <= |outcomes|
    ensures attempt - 1 <= run.attempts <= if retries >= attempt then retries else attempt - 1
    ensures |run.waits| == if run.attempts >= attempt then run.attempts - attempt else 0
    ensures forall i :: 0 <= i < |run.waits| ==> run.waits[i] == BackoffDelay(retryDelay, attempt + i)
    ensures forall j :: attempt - 1 <= j < run.attempts - 1 ==> AttemptOnce(outcomes[j]).Err?
    ensures run.result.Returned? <==>
              run.attempts >= attempt && AttemptOnce(outcomes[run.attempts - 1]).Ok?
    ensures run.result.Returned? ==> run.result.data == AttemptOnce(outcomes[run.attempts - 1]).value
    ensures run.result.Threw? ==>
              run.attempts == (if retries >= attempt then retries else attempt - 1)
    ensures run.result.Threw? ==>
              run.result.error == if run.attempts >= attempt
                                  then Some(AttemptOnce(outcomes[run.attempts - 1]).message)
                                  else lastError
    decreases retries + 1 - attempt
  {
    if attempt > retries then RetryRun(Threw(lastError), attempt - 1, [])
    else match AttemptOnce(outcomes[attempt - 1])
      case Ok(data) => RetryRun(Returned(data), attempt, [])
      case Err(message) =>
        var wait := if attempt < retries then [BackoffDelay(retryDelay, attempt)] else [];
        var rest := RetryFrom(outcomes, retries, retryDelay, attempt + 1, Some(message));
        RetryRun(rest.result, rest.attempts, wait + rest.waits)
  }

  /** `executeRequestWithRetry(url, config)`: attempts run in order until
      one succeeds or `retries` attempts have failed; every failure, of any
      kind, is caught and retried; a wait of `retryDelay * 2^(k-1)` follows
      failed attempt `k` only when attempt `k + 1` will run. */
  function ExecuteRequestWithRetry(outcomes: seq<FetchOutcome>, retries: int, retryDelay: int): (run: RetryRun)
    requires retries <= |outcomes|
    ensures run.attempts <= if retries > 0 then retries else 0
    ensures |run.waits| == if run.attempts > 0 then run.attempts - 1 else 0
    ensures run.waits == DoublingWaits(retryDelay, |run.waits|)
    ensures forall j :: 0 <= j < run.attempts - 1 ==> AttemptOnce(outcomes[j]).Err?
    ensures run.result.Returned? <==> run.attempts > 0 && AttemptOnce(outcomes[run.attempts - 1]).Ok?
    ensures run.result.Returned? ==> run.result.data == AttemptOnce(outcomes[run.attempts - 1]).value
    ensures run.result.Threw? ==> run.attempts == if retries > 0 then retries else 0
    ensures run.result.Threw? ==>
              run.result.error == if retries > 0 then Some(AttemptOnce(outcomes[retries - 1]).message) else None
  {
    var run := RetryFrom(outcomes, retries, retryDelay, 1, None);
    WaitsAreDoubling(run.waits, retryDelay);
    run
  }

  /** When every attempt fails, exactly `retries` attempts are made, the
      error of the last one is rethrown, and `retries - 1` waits were slept. */
  lemma AllAttemptsFail(outcomes: seq<FetchOutcome>, retries: int, retryDelay: int)
    requires 1 <= retries <= |outcomes|
    requires forall j :: 0 <= j < retries ==> AttemptOnce(outcomes[j]).Err?
    ensures var run := ExecuteRequestWithRetry(outcomes, retries, retryDelay);
            && run.attempts == retries
            && run.result == Threw(Some(AttemptOnce(outcomes[retries - 1]).message))
            && |run.waits| == retries - 1
  {
  }

  /** A success on attempt `k` after `k - 1` failures returns that attempt's
      data at once: no later attempt runs and no further wait is slept. */
  lemma FirstSuccessReturns(outcomes: seq<FetchOutcome>, retries: int, retryDelay: int, k: nat)
    requires 1 <= k <= retries <= |outcomes|
    requires forall j :: 0 <= j < k - 1 ==> AttemptOnce(outcomes[j]).Err?
    requires AttemptOnce(outcomes[k - 1]).Ok?
    ensures var run := ExecuteRequestWithRetry(outcomes, retries, retryDelay);
            && run.attempts == k
            && run.result == Returned(AttemptOnce(outcomes[k - 1]).value)
            && |run.waits| == k - 1
  {
  }

  function Sum(s: seq<int>): int {
    if s == [] then 0 else Sum(s[..|s| - 1]) + s[|s| - 1]
  }

  /** The first `n` waits add up to `retryDelay * (2^n - 1)`. */
  lemma {:induction false} DoublingSum(retryDelay: int, n: nat)
    ensures Sum(DoublingWaits(retryDelay, n)) == retryDelay * (Pow2(n) - 1)
  {
    if n > 0 {
      var w := DoublingWaits(retryDelay, n);
      assert w[..n - 1] == DoublingWaits(retryDelay, n - 1);
      DoublingSum(retryDelay, n - 1);
      SumSnoc(w);
      OneMoreDoubling(retryDelay, Pow2(n - 1), Pow2(n), Sum(w[..n - 1]), w[n - 1]);
    }
  }

  lemma SumSnoc(w: seq<int>)
    requires w != []
    ensures Sum(w) == Sum(w[..|w| - 1]) + w[|w| - 1]
  {
  }

  /** The arithmetic step of `DoublingSum`: adding the next doubled wait. */
  lemma OneMoreDoubling(base: int, p: int, q: int, before: int, next: int)
    requires q == 2 * p
    requires before == base * (p - 1) && next == base * p
    ensures before + next == base * (q - 1)
  {
  }

  /** A run of `n >= 1` attempts slept `retryDelay * (2^(n-1) - 1)` in total. */
  lemma TotalBackoff(outcomes: seq<FetchOutcome>, retries: int, retryDelay: int)
    requires retries <= |outcomes|
    ensures var run := ExecuteRequestWithRetry(outcomes, retries, retryDelay);
            run.attempts >= 1 ==> Sum(run.waits) == retryDelay * (Pow2(run.attempts - 1) - 1)
  {
    var run := ExecuteRequestWithRetry(outcomes, retries, retryDelay);
    if run.attempts >= 1 {
      DoublingSum(retryDelay, run.attempts - 1);
    }
  }

  /** Two environments whose attempts succeed at the same places with the
      same data drive the loop identically, whatever kind of failure each
      failed attempt was: only the rethrown message can differ. */
  ghost predicate SameSuccesses(o1: seq<FetchOutcome>, o2: seq<FetchOutcome>, n: int) {
    n <= |o1| && n <= |o2| &&
    forall j :: 0 <= j < n ==> AttemptsAgree(o1[j], o2[j])
  }

  /** Both attempts succeed with the same data, or both fail. */
  ghost predicate AttemptsAgree(a: FetchOutcome, b: FetchOutcome) {
    AttemptOnce(a).Ok? == AttemptOnce(b).Ok? && (AttemptOnce(a).Ok? ==> AttemptOnce(a) == AttemptOnce(b))
  }

  /** Every failure kind (non-ok status, timeout, network error, decode
      error) is retried in the same way: none ends the loop early. */
  lemma FailureKindIrrelevant(o1: seq<FetchOutcome>, o2: seq<FetchOutcome>, retries: int, retryDelay: int)
    requires SameSuccesses(o1, o2, retries)
    ensures var r1 := ExecuteRequestWithRetry(o1, retries, retryDelay);
            var r2 := ExecuteRequestWithRetry(o2, retries, retryDelay);
            && r1.attempts == r2.attempts && r1.waits == r2.waits
            && r1.result.Returned? == r2.result.Returned?
            && (r1.result.Returned? ==> r1.result == r2.result)
  {
    var r1 := ExecuteRequestWithRetry(o1, retries, retryDelay);
    var r2 := ExecuteRequestWithRetry(o2, retries, retryDelay);
    if r1.result.Returned? {
      var k := r1.attempts;
      assert AttemptsAgree(o1[k - 1], o2[k - 1]);
      assert forall j :: 0 <= j < k - 1 ==> AttemptOnce(o2[j]).Err? by {
        forall j | 0 <= j < k - 1 ensures AttemptOnce(o2[j]).Err? {
          assert AttemptsAgree(o1[j], o2[j]);
        }
      }
      FirstSuccessReturns(o2, retries, retryDelay, k);
    } else if retries >= 1 {
      assert forall j :: 0 <= j < retries ==> AttemptOnce(o2[j]).Err? by {
        forall j | 0 <= j < retries ensures AttemptOnce(o2[j]).Err? {
          assert AttemptsAgree(o1[j], o2[j]);
        }
      }
      AllAttemptsFail(o2, retries, retryDelay);
    }
    assert r1.waits == r2.waits;
  }

  /** A 404 on the first attempt is retried: with a success on the second
      attempt, the call returns the second attempt's data after one wait. */
  lemma ClientErrorIsRetried(notFound: HttpResponse, ok: HttpResponse, rest: seq<FetchOutcome>, retries: int, retryDelay: int)
    requires notFound.status == 404
    requires IsOk(ok) && ok.body.Parsed?
    requires 2 <= retries <= 2 + |rest|
    ensures var run := ExecuteRequestWithRetry([Responded(notFound), Responded(ok)] + rest, retries, retryDelay);
            run == RetryRun(Returned(ok.body.value), 2, [retryDelay])
  {
    var outcomes := [Responded(notFound), Responded(ok)] + rest;
    FirstSuccessReturns(outcomes, retries, retryDelay, 2);
  }

  /** The options `makeRequest` accepts that change the retry policy; an
      absent key keeps the configured default. */
  datatype RequestOptions = RequestOptions(timeout: Option<int>, retries: Option<int>, retryDelay: Option<int>)

  datatype RequestConfig = RequestConfig(timeout: int, retries: int, retryDelay: int)

  const NO_OPTIONS: RequestOptions := RequestOptions(None, None, None)

  /** `{ timeout, retries, retryDelay from CONFIG.REQUEST, ...options }`. */
  function MergeOptions(options: RequestOptions): RequestConfig {
    RequestConfig(
      if options.timeout.Some? then options.timeout.value else REQUEST_TIMEOUT,
      if options.retries.Some? then options.retries.value else RETRY_ATTEMPTS,
      if options.retryDelay.Some? then options.retryDelay.value else RETRY_DELAY)
  }

  /** Without options a request gets the configured policy: 3 attempts,
      1000 ms base delay, 10000 ms per attempt; if all three attempts fail
      the waits are 1000 ms and then 2000 ms. */
  lemma DefaultPolicy(outcomes: seq<FetchOutcome>)
    requires |outcomes| >= 3
    requires forall j :: 0 <= j < 3 ==> AttemptOnce(outcomes[j]).Err?
    ensures MergeOptions(NO_OPTIONS) == RequestConfig(10000, 3, 1000)
    ensures ExecuteRequestWithRetry(outcomes, RETRY_ATTEMPTS, RETRY_DELAY).waits == [1000, 2000]
  {
    AllAttemptsFail(outcomes, RETRY_ATTEMPTS, RETRY_DELAY);
  }

  /** Each option that is present overrides its own default, and only that
      one: dropping one option restores its default and keeps the others. */
  lemma OptionOverrides(options: RequestOptions)
    ensures options.timeout.Some? ==> MergeOptions(options).timeout == options.timeout.value
    ensures options.timeout.None? ==> MergeOptions(options).timeout == REQUEST_TIMEOUT
    ensures options.retries.Some? ==> MergeOptions(options).retries == options.retries.value
    ensures options.retries.None? ==> MergeOptions(options).retries == RETRY_ATTEMPTS
    ensures options.retryDelay.Some? ==> MergeOptions(options).retryDelay == options.retryDelay.value
    ensures options.retryDelay.None? ==> MergeOptions(options).retryDelay == RETRY_DELAY
    ensures MergeOptions(options.(timeout := None)) == MergeOptions(options).(timeout := REQUEST_TIMEOUT)
    ensures MergeOptions(options.(retries := None)) == MergeOptions(options).(retries := RETRY_ATTEMPTS)
    ensures MergeOptions(options.(retryDelay := None)) == MergeOptions(options).(retryDelay := RETRY_DELAY)
  {
  }

  /** The categories `handleError` tells apart, in its order of priority. */
  datatype ErrorKind =
    | TimeoutKind
    | NetworkKind
    | ClientKind
    | ServerKind
    | Unclassified(message: string)

  const MSG_CLIENT_ERROR: string := "Erro de autorização ou dados inválidos"
  const MSG_SERVER_ERROR: string := "Erro interno do servidor. Tente novamente mais tarde."

  /** The ordered substring tests of `handleError`. */
  function Classify(message: string): ErrorKind {
    if Contains(message, "Timeout") then TimeoutKind
    else if Contains(message, "Failed to fetch") || Contains(message, "NetworkError") then NetworkKind
    else if Contains(message, "HTTP 4") then ClientKind
    else if Contains(message, "HTTP 5") then ServerKind
    else Unclassified(message)
  }

  /** `handleError(error).message`: one of the fixed user-facing messages,
      or the original message when no test matches (the unknown-error
      message when that is empty). It is never empty. */
  function HandleError(message: string): (r: string)
    ensures r != ""
    ensures r == message || r in {MSG_TIMEOUT_ERROR, MSG_NETWORK_ERROR, MSG_CLIENT_ERROR, MSG_SERVER_ERROR, MSG_UNKNOWN_ERROR}
    ensures Classify(message).Unclassified? ==> r == (if message == "" then MSG_UNKNOWN_ERROR else message)
  {
    match Classify(message)
    case TimeoutKind => MSG_TIMEOUT_ERROR
    case NetworkKind => MSG_NETWORK_ERROR
    case ClientKind => MSG_CLIENT_ERROR
    case ServerKind => MSG_SERVER_ERROR
    case Unclassified(m) => if m == "" then MSG_UNKNOWN_ERROR else m
  }

  /** Any message naming `Timeout` is reported as a timeout, whatever else
      it contains: that test comes first. */
  lemma TimeoutClassified(m: string)
    requires Contains(m, "Timeout")
    ensures Classify(m) == TimeoutKind
    ensures HandleError(m) == MSG_TIMEOUT_ERROR
  {
  }

  /** A message without `Timeout` that names `Failed to fetch` or
      `NetworkError` (what a failed fetch rejects with) is reported as a
      network error, even if it also holds an `HTTP` status. */
  lemma NetworkErrorClassified(m: string)
    requires !Contains(m, "Timeout")
    requires Contains(m, "Failed to fetch") || Contains(m, "NetworkError")
    ensures Classify(m) == NetworkKind
    ensures HandleError(m) == MSG_NETWORK_ERROR
  {
  }

  /** A rejected fetch keeps its message through the attempt, so a
      `Failed to fetch` rejection reaches the user as the network message. */
  lemma RejectedFetchIsNetworkError(message: string)
    requires !Contains(message, "Timeout")
    requires Contains(message, "Failed to fetch") || Contains(message, "NetworkError")
    ensures HandleError(AttemptOnce(Rejected(message)).message) == MSG_NETWORK_ERROR
  {
    NetworkErrorClassified(message);
  }

  /** An aborted attempt's error is classified as a timeout. */
  lemma AbortIsTimeout()
    ensures Classify(AttemptOnce(Aborted).message) == TimeoutKind
    ensures HandleError(AttemptOnce(Aborted).message) == MSG_TIMEOUT_ERROR
  {
    assert TIMEOUT_MESSAGE[0..7] == "Timeout";
    OccursAtContains(TIMEOUT_MESSAGE, "Timeout", 0);
  }

  /** `"HTTP " + status + ": "`, the start of the message for a response that is not ok. */
  function HttpPrefix(status: nat): string {
    "HTTP " + DecimalString(status) + ": "
  }

  lemma HttpPrefixShape(status: nat)
    requires 100 <= status <= 999
    ensures var p := HttpPrefix(status);
            && |p| == 10
            && p[0] == 'H' && p[1] == 'T' && p[2] == 'T' && p[3] == 'P' && p[4] == ' '
            && p[5] == DigitChar(status / 100)
            && IsDigit(p[6]) && IsDigit(p[7]) && p[8] == ':' && p[9] == ' '
  {
    ThreeDigits(status);
  }

  /** A message for a status of three digits begins `HTTP d` with `d` the
      status's leading digit. */
  lemma StatusLineStart(status: nat, text: string)
    requires 100 <= status <= 999
    ensures OccursAt(HttpErrorMessage(status, text), "HTTP " + [DigitChar(status / 100)], 0)
  {
    var p := HttpPrefix(status);
    HttpPrefixShape(status);
    var m := p + text;
    assert HttpErrorMessage(status, text) == m;
    var t := "HTTP " + [DigitChar(status / 100)];
    assert m[0..6] == p[0..6];
    assert p[0..6] == t;
  }

  lemma LeadingDigit(status: nat, d: nat)
    requires 100 * d <= status < 100 * (d + 1)
    ensures status / 100 == d
  {
  }

  /** The status line cannot produce a `Timeout`, `Failed to fetch` or
      `NetworkError` match on its own: those patterns are found in the
      message exactly when they are in the status text. */
  lemma StatusLineNeutral(status: nat, text: string)
    requires 100 <= status <= 999
    ensures HttpErrorMessage(status, text) == HttpPrefix(status) + text
    ensures Contains(HttpErrorMessage(status, text), "Timeout") <==> Contains(text, "Timeout")
    ensures Contains(HttpErrorMessage(status, text), "Failed to fetch") <==> Contains(text, "Failed to fetch")
    ensures Contains(HttpErrorMessage(status, text), "NetworkError") <==> Contains(text, "NetworkError")
  {
    var p := HttpPrefix(status);
    HttpPrefixShape(status);
    assert HttpErrorMessage(status, text) == p + text;
    assert forall i :: 0 <= i < |p| ==> MismatchNear(p, "Timeout", i) by {
      forall i | 0 <= i < |p| ensures MismatchNear(p, "Timeout", i) {
        if i == 1 || i == 2 {
          assert p[i + 1] != 'i';
        } else {
          assert p[i] != 'T';
        }
      }
    }
    ContainsAfter(p, text, "Timeout");
    assert forall i :: 0 <= i < |p| ==> MismatchNear(p, "Failed to fetch", i) by {
      forall i | 0 <= i < |p| ensures MismatchNear(p, "Failed to fetch", i) {
        assert p[i] != 'F';
      }
    }
    ContainsAfter(p, text, "Failed to fetch");
    assert forall i :: 0 <= i < |p| ==> MismatchNear(p, "NetworkError", i) by {
      forall i | 0 <= i < |p| ensures MismatchNear(p, "NetworkError", i) {
        assert p[i] != 'N';
      }
    }
    ContainsAfter(p, text, "NetworkError");
  }

  /** A 4xx response whose status text holds none of the higher-priority
      patterns is reported as an authorisation or data error. */
  lemma ClientStatusClassified(status: nat, text: string)
    requires 400 <= status <= 499
    requires !Contains(text, "Timeout")
    requires !Contains(text, "Failed to fetch") && !Contains(text, "NetworkError")
    ensures Classify(HttpErrorMessage(status, text)) == ClientKind
    ensures HandleError(HttpErrorMessage(status, text)) == MSG_CLIENT_ERROR
  {
    var m := HttpErrorMessage(status, text);
    StatusLineNeutral(status, text);
    StatusLineStart(status, text);
    LeadingDigit(status, 4);
    assert DigitChar(4) == '4';
    assert "HTTP " + ['4'] == "HTTP 4";
    OccursAtContains(m, "HTTP 4", 0);
    ClassifiedAs(m, ClientKind);
  }

  /** A 5xx response whose status text holds none of the higher-priority
      patterns is reported as a server error. */
  lemma ServerStatusClassified(status: nat, text: string)
    requires 500 <= status <= 599
    requires !Contains(text, "Timeout")
    requires !Contains(text, "Failed to fetch") && !Contains(text, "NetworkError")
    requires !Contains(text, "HTTP 4")
    ensures Classify(HttpErrorMessage(status, text)) == ServerKind
    ensures HandleError(HttpErrorMessage(status, text)) == MSG_SERVER_ERROR
  {
    var m := HttpErrorMessage(status, text);
    StatusLineNeutral(status, text);
    ServerLineNotClient(status, text);
    StatusLineStart(status, text);
    LeadingDigit(status, 5);
    assert DigitChar(5) == '5';
    assert "HTTP " + ['5'] == "HTTP 5";
    OccursAtContains(m, "HTTP 5", 0);
    ClassifiedAs(m, ServerKind);
  }

  /** The tests of `Classify` settle a message as their first match. */
  lemma ClassifiedAs(m: string, kind: ErrorKind)
    requires !Contains(m, "Timeout") && !Contains(m, "Failed to fetch") && !Contains(m, "NetworkError")
    requires kind == ClientKind ==> Contains(m, "HTTP 4")
    requires kind == ServerKind ==> !Contains(m, "HTTP 4") && Contains(m, "HTTP 5")
    requires kind == ClientKind || kind == ServerKind
    ensures Classify(m) == kind
    ensures HandleError(m) == if kind == ClientKind then MSG_CLIENT_ERROR else MSG_SERVER_ERROR
  {
  }

  /** A 5xx status line holds no `HTTP 4`, so the message does only when
      the status text does. */
  lemma ServerLineNotClient(status: nat, text: string)
    requires 500 <= status <= 599
    requires !Contains(text, "HTTP 4")
    ensures !Contains(HttpErrorMessage(status, text), "HTTP 4")
  {
    var m := HttpErrorMessage(status, text);
    var p := HttpPrefix(status);
    HttpPrefixShape(status);
    assert m == p + text;
    assert !("HTTP 4" <= m) by {
      assert m[5] == '5';
    }
    assert m[1..] == p[1..] + text;
    assert forall i :: 0 <= i < |p[1..]| ==> MismatchNear(p[1..], "HTTP 4", i) by {
      forall i | 0 <= i < |p[1..]| ensures MismatchNear(p[1..], "HTTP 4", i) {
        assert p[1..][i] == p[i + 1] != 'H';
      }
    }
    ContainsAfter(p[1..], text, "HTTP 4");
  }

  /** A status text mentioning `Timeout` (a 504 "Gateway Timeout", a 408
      "Request Timeout") outranks the status class: the error is reported
      as a timeout. */
  lemma TimeoutInStatusTextWins(status: nat, text: string)
    requires Contains(text, "Timeout")
    ensures Classify(HttpErrorMessage(status, text)) == TimeoutKind
  {
    assert HttpErrorMessage(status, text) == HttpPrefix(status) + text;
    ContainsInSuffix(HttpPrefix(status), text, "Timeout");
  }

  /** How `makeRequest` settles. `RejectedOnUndefined` is the case where no
      attempt ran (`retries <= 0`): `undefined` is thrown and
      `handleError(undefined)` itself fails reading `.message`. */
  datatype RequestOutcome = Resolved(data: JsValue) | RejectedWith(message: string) | RejectedOnUndefined

  /** `makeRequest(url, options)`: merge the options, run the retry loop,
      and classify the final error. */
  function MakeRequest(options: RequestOptions, outcomes: seq<FetchOutcome>): (r: RequestOutcome)
    requires MergeOptions(options).retries <= |outcomes|
    ensures var config := MergeOptions(options);
            var run := ExecuteRequestWithRetry(outcomes, config.retries, config.retryDelay);
            && (r.Resolved? <==> run.result.Returned?)
            && (r.Resolved? ==> r.data == run.result.data)
            && (r.RejectedOnUndefined? <==> config.retries <= 0)
            && (r.RejectedWith? ==>
                  config.retries >= 1
                  && r.message == HandleError(AttemptOnce(outcomes[config.retries - 1]).message))
  {
    var config := MergeOptions(options);
    var run := ExecuteRequestWithRetry(outcomes, config.retries, config.retryDelay);
    match run.result
    case Returned(data) => Resolved(data)
    case Threw(None) => RejectedOnUndefined
    case Threw(Some(message)) => RejectedWith(HandleError(message))
  }

  /** With the default policy, three timeouts in a row reach the user as
      the timeout message. */
  lemma ThreeTimeoutsReportTimeout(rest: seq<FetchOutcome>)
    ensures MakeRequest(NO_OPTIONS, [Aborted, Aborted, Aborted] + rest) == RejectedWith(MSG_TIMEOUT_ERROR)
  {
    var outcomes := [Aborted, Aborted, Aborted] + rest;
    AllAttemptsFail(outcomes, RETRY_ATTEMPTS, RETRY_DELAY);
    AbortIsTimeout();
  }
}

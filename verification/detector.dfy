/** The detector's entry point (`analyze_url`): normalise the URL, fetch
    the page, run the passes, score, profile, and turn every failure into
    the degraded result of `_error_result`. The network fetch is a
    parameter. `AnalyzeUrl` normalises the URL as the code is written
    (`Urls.NormalizeUrlAsWritten`); `AnalyzeUrlIntended` normalises it the
    way the code evidently intends (`Urls.NormalizeUrl`). The two fetch
    different targets exactly when the URL has a scheme but no `//` after
    it: a bare `host:port`, but also `http:x` or `mailto:a@b`. A URL that
    `urlparse` itself rejects gives the analysis error in both. */
module Detector {
  import opened Options
  import opened Catalog
  import opened Evidence
  import opened Extractors
  import opened Scorer
  import opened StackProfiler
  import opened Strings
  import opened Urls

  // ---------------------------------------------------------------------
  // Results

  /** The three failure classes, with the names the result carries. */
  datatype ErrorKind = Timeout | ConnectionError | AnalysisError {
    function Name(): string {
      match this
      case Timeout => "Timeout"
      case ConnectionError => "Connection Error"
      case AnalysisError => "Analysis Error"
    }
  }

  /** The `error` / `message` pair the receipts of a failed analysis hold. */
  datatype Failure = Failure(kind: ErrorKind, message: string)

  /** `analysis_data`: where the page came from, or the error message. */
  datatype AnalysisData =
    | Fetched(url: string, statusCode: int, responseTimeMs: int)
    | Failed(error: string)

  datatype AnalysisResult = AnalysisResult(
    verdict: Verdict,
    confidence: nat,
    receipts: Receipts,
    failure: Option<Failure>,
    stackDna: StackDna,
    analysisData: AnalysisData)

  /** What the HTTP layer returns. The response carries its status, the
      elapsed time in microseconds, the parsed page, and the message
      `raise_for_status` would raise with. */
  datatype Response = Response(statusCode: int, elapsedMicros: nat, page: Page, statusError: string)

  datatype FetchOutcome =
    | Responded(response: Response)
    | TimedOut                    // `requests.Timeout`
    | RequestFailed(reason: string) // any other `requests.RequestException`
    | Crashed(reason: string)       // any other exception

  const TimeoutMessage: string := "Request timeout"

  /** `_error_result`: the degraded answer for a failed analysis. */
  function ErrorResult(kind: ErrorKind, message: string): (r: AnalysisResult)
    ensures r.verdict == WrapperSus && r.confidence == 30
    ensures r.receipts == EmptyReceipts && r.failure == Some(Failure(kind, message))
    ensures r.stackDna == Summary(None, None, false)
    ensures r.analysisData == Failed(message)
  {
    AnalysisResult(WrapperSus, 30, EmptyReceipts, Some(Failure(kind, message)), Summary(None, None, false), Failed(message))
  }

  /** `raise_for_status`: 4xx and 5xx answers are errors. */
  predicate IsHttpError(status: int) {
    400 <= status < 600
  }

  /** What `analyze_url` returns once the URL to fetch is `target`. */
  predicate Reports(target: string, fetch: string -> FetchOutcome, r: AnalysisResult) {
    // A degraded result and only a degraded result has confidence 30;
    // every scored result lies in [50, 95].
    && 30 <= r.confidence <= 95
    && (r.confidence == 30 <==> r.failure.Some?)
    && (r.failure.Some? ==> r == ErrorResult(r.failure.value.kind, r.failure.value.message))
    // Each failure is classified by what the fetch reported.
    && (fetch(target).TimedOut? ==> r.failure == Some(Failure(Timeout, TimeoutMessage)))
    && (fetch(target).RequestFailed? ==> r.failure == Some(Failure(ConnectionError, fetch(target).reason)))
    && (fetch(target).Crashed? ==> r.failure == Some(Failure(AnalysisError, fetch(target).reason)))
    && (fetch(target).Responded? && IsHttpError(fetch(target).response.statusCode) ==>
          r.failure == Some(Failure(ConnectionError, fetch(target).response.statusError)))
    // A page that arrives is scanned, scored and profiled, and the result
    // echoes the target, the status and the elapsed whole milliseconds.
    && (fetch(target).Responded? && !IsHttpError(fetch(target).response.statusCode) ==>
          var resp := fetch(target).response;
          && r.failure.None?
          && r.receipts == Extract(resp.page)
          && r.verdict == CalculateVerdict(r.receipts).verdict
          && r.confidence == CalculateVerdict(r.receipts).confidence
          && r.stackDna == BuildStackDna(r.receipts)
          && r.analysisData == Fetched(target, resp.statusCode, resp.elapsedMicros / 1000))
  }

  /** The analysis of the normalised URL `target`. */
  function AnalyzeTarget(target: string, fetch: string -> FetchOutcome): (r: AnalysisResult)
    ensures Reports(target, fetch, r)
    ensures r.receipts.suspiciousPatterns == []
    ensures r.failure.None? ==>
      && fetch(target).Responded?
      && r.analysisData.Fetched? && r.analysisData.url == target
      && r.stackDna.Profile?
      && WellGraded(r.receipts.wrapperSignals, OrEmpty(fetch(target).response.page.stylesheetHrefs))
  {
    match fetch(target)
    case TimedOut => ErrorResult(Timeout, TimeoutMessage)
    case RequestFailed(reason) => ErrorResult(ConnectionError, reason)
    case Crashed(reason) => ErrorResult(AnalysisError, reason)
    case Responded(resp) =>
      if IsHttpError(resp.statusCode) then ErrorResult(ConnectionError, resp.statusError)
      else
        var rc := Extract(resp.page);
        var a := CalculateVerdict(rc);
        AnalysisResult(a.verdict, a.confidence, rc, None, BuildStackDna(rc),
          Fetched(target, resp.statusCode, resp.elapsedMicros / 1000))
  }

  /** `analyze_url` as written. A URL `urlparse` rejects gives the
      degraded analysis error without any fetch; otherwise the page is
      fetched from the URL itself when `urlparse` finds a scheme, and from
      `https://` + the URL otherwise. */
  function AnalyzeUrl(url: string, fetch: string -> FetchOutcome): (r: AnalysisResult)
    ensures UrlParseFails(url) ==> r == ErrorResult(AnalysisError, InvalidIpv6Message)
    ensures !UrlParseFails(url) ==> Reports(NormalizeUrlAsWritten(url), fetch, r)
  {
    if UrlParseFails(url) then ErrorResult(AnalysisError, InvalidIpv6Message)
    else AnalyzeTarget(NormalizeUrlAsWritten(url), fetch)
  }

  /** `analyze_url` as evidently intended: a URL `urlparse` rejects fails
      as before; any other is prefixed with `https://` unless it already
      names a scheme and a host. */
  function AnalyzeUrlIntended(url: string, fetch: string -> FetchOutcome): (r: AnalysisResult)
    ensures UrlParseFails(url) ==> r == ErrorResult(AnalysisError, InvalidIpv6Message)
    ensures !UrlParseFails(url) ==> Reports(NormalizeUrl(url), fetch, r)
  {
    if UrlParseFails(url) then ErrorResult(AnalysisError, InvalidIpv6Message)
    else AnalyzeTarget(NormalizeUrl(url), fetch)
  }

  /** `urlparse` rejecting the URL is an analysis error with its message,
      whatever the network would have answered. */
  lemma BadUrlNeverFetched(h: string, fetch: string -> FetchOutcome)
    requires '[' in h
    requires forall j :: 0 <= j < |h| ==> !IsNetlocEnd(h[j]) && h[j] != ']' && !IsUnsafe(h[j])
    ensures AnalyzeUrl(DefaultScheme + h, fetch).failure == Some(Failure(AnalysisError, InvalidIpv6Message))
    ensures AnalyzeUrl(DefaultScheme + h, fetch).confidence == 30
  {
    OpenBracketFails(h);
  }

  /** Every successful intended analysis parsed the URL and fetched a URL
      with a host. */
  lemma IntendedFetchesHost(url: string, fetch: string -> FetchOutcome)
    requires AnalyzeUrlIntended(url, fetch).failure.None?
    ensures !UrlParseFails(url)
    ensures AnalyzeUrlIntended(url, fetch).analysisData.Fetched?
    ensures HasAuthority(AnalyzeUrlIntended(url, fetch).analysisData.url)
  {
  }

  /** As written, a successful analysis parsed the URL and fetched a URL
      with a scheme, but not necessarily with a host. */
  lemma WrittenFetchesScheme(url: string, fetch: string -> FetchOutcome)
    requires AnalyzeUrl(url, fetch).failure.None?
    ensures !UrlParseFails(url)
    ensures AnalyzeUrl(url, fetch).analysisData.Fetched?
    ensures AnalyzeUrl(url, fetch).analysisData.url == (if HasScheme(url) then url else DefaultScheme + url)
    ensures HasScheme(AnalyzeUrl(url, fetch).analysisData.url)
  {
  }

  /** The two agree on every URL without a scheme and on every URL with a
      scheme and a host. */
  lemma AnalyzeUrlAgrees(url: string, fetch: string -> FetchOutcome)
    requires !HasScheme(url) || HasAuthority(url)
    ensures AnalyzeUrl(url, fetch) == AnalyzeUrlIntended(url, fetch)
  {
    NormalizationsAgree(url);
  }

  /** A bare `host:port`, as in `localhost:8080` or `example.com:8080`:
      as written, the fetch goes to the URL itself, which names no host;
      as intended, it goes to `https://host:port`. */
  lemma HostPortFetchTargets(host: string, port: string, fetch: string -> FetchOutcome)
    requires host != [] && IsAsciiLetter(host[0])
    requires forall j :: 0 <= j < |host| ==> IsSchemeChar(host[j])
    requires forall j :: 0 <= j < |port| ==> IsDigit(port[j])
    ensures Reports(host + ":" + port, fetch, AnalyzeUrl(host + ":" + port, fetch))
    ensures Reports(DefaultScheme + (host + ":" + port), fetch, AnalyzeUrlIntended(host + ":" + port, fetch))
  {
    HostPortIsScheme(host, port);
    HostPortGetsPrefix(host, port);
  }

  /** Analysing the URL a successful analysis echoes repeats the analysis,
      since the echoed URL is already normalised, unless `urlparse` rejects
      the echo. That can happen only when `https://` was put in front of a
      URL such as `[abc`; a URL with a scheme is echoed as it is. */
  lemma AnalyzeEchoStable(url: string, fetch: string -> FetchOutcome)
    requires AnalyzeUrl(url, fetch).failure.None?
    ensures var echo := AnalyzeUrl(url, fetch).analysisData.url;
      AnalyzeUrl(echo, fetch) ==
        if UrlParseFails(echo) then ErrorResult(AnalysisError, InvalidIpv6Message) else AnalyzeUrl(url, fetch)
    ensures HasScheme(url) ==> AnalyzeUrl(AnalyzeUrl(url, fetch).analysisData.url, fetch) == AnalyzeUrl(url, fetch)
  {
    NormalizeIdempotent(url);
  }
}

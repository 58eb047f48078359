/** Runs of src/jibit/engine.py in terms of what goes over the wire and what comes back: the requests sent, and the
    result, the trace and the sleeps as the outcomes decide them. */
module Runs {
  import opened PyValues
  import opened Retry
  import opened Config
  import opened Engine

  // ----- The requests on the wire -----

  /** The first of the two strings that is there. */
  function FirstOf(preferred: Option<string>, fallback: string): string {
    if preferred.Some? then preferred.value else fallback
  }

  /** The base URL the service was given, if any. */
  function OwnBaseUrl(config: JibitConfig, service: ServiceName): Option<string> {
    if service in config.services then config.services[service].baseUrl else None
  }

  /** The service's own base URL, or the default one, without slashes at its end, one slash, and the path without
      slashes at its start. */
  ghost predicate UrlIs(config: JibitConfig, service: ServiceName, path: string, url: string) {
    exists root, endpoint ::
      && TrimmedRight(FirstOf(OwnBaseUrl(config, service), config.baseUrl), '/', root)
      && TrimmedLeft(path, '/', endpoint)
      && url == root + "/" + endpoint
  }

  predicate HeaderIs(q: TransportRequest, key: string, value: string) {
    key in q.headers && q.headers[key] == value
  }

  /** A request as its caller meant it: the URL of its service and path; the caller's headers, and the values of the
      three others where the caller set none; method and body the caller's. */
  ghost predicate OnWire(platform: Platform, config: JibitConfig, options: RequestOptions, cid: string,
      q: TransportRequest)
  {
    && q.httpMethod == platform.upper(options.httpMethod)
    && q.body == options.body
    && UrlIs(config, options.service, options.path, q.url)
    && (forall key :: key in q.headers <==>
          || key in options.headers || key == "Accept" || key == "X-Correlation-ID"
          || (key == "Idempotency-Key" && options.idempotencyKey.Some?))
    && (forall key :: key in options.headers ==> HeaderIs(q, key, options.headers[key]))
    && ("Accept" !in options.headers ==> HeaderIs(q, "Accept", "application/json"))
    && ("X-Correlation-ID" !in options.headers ==> HeaderIs(q, "X-Correlation-ID", cid))
    && ("Idempotency-Key" !in options.headers && options.idempotencyKey.Some? ==>
          HeaderIs(q, "Idempotency-Key", options.idempotencyKey.value))
  }

  /** The caller's correlation identifier, or the next one drawn. */
  ghost predicate IsCorrelationId(env: Env, w: World, options: RequestOptions, cid: string) {
    if options.correlationId.Some? && options.correlationId.value != "" then cid == options.correlationId.value
    else cid == env.ids(w.idsDrawn)
  }

  /** The request of a run that starts in this world. */
  ghost predicate Sends(platform: Platform, config: JibitConfig, env: Env, w: World, options: RequestOptions,
      q: TransportRequest)
  {
    exists cid :: IsCorrelationId(env, w, options, cid) && OnWire(platform, config, options, cid, q)
  }

  lemma UrlBuilt(config: JibitConfig, service: ServiceName, path: string)
    ensures UrlIs(config, service, path, BuildUrl(config, service, path))
  {
    var base := FirstOf(OwnBaseUrl(config, service), config.baseUrl);
    StripRightTrims(base, '/');
    StripLeftTrims(path, '/');
    assert BuildUrl(config, service, path) == StripRight(base, '/') + "/" + StripLeft(path, '/');
    hide StripRight, StripLeft, TrimmedRight, TrimmedLeft;
  }

  lemma BuiltForTheWire(platform: Platform, config: JibitConfig, options: RequestOptions, cid: string)
    ensures OnWire(platform, config, options, cid, BuildRequest(platform, config, options, cid))
  {
    UrlBuilt(config, options.service, options.path);
    hide UrlIs, BuildUrl;
  }

  /** Every request of a run, retries included, is on the wire what the caller asked for. */
  lemma RequestsOnTheWire(platform: Platform, config: JibitConfig, env: Env, w: World, options: RequestOptions)
    requires config.Valid()
    ensures
      var w' := ExecuteSpec(platform, config, env, w, options).0;
      && w.sent <= w'.sent
      && (forall i :: |w.sent| <= i < |w'.sent| ==>
            Sends(platform, config, env, w, options, w'.sent[i]))
  {
    var w' := ExecuteSpec(platform, config, env, w, options).0;
    var cid := ChooseCorrelationId(env, w, options).0;
    assert IsCorrelationId(env, w, options, cid);
    BuiltForTheWire(platform, config, options, cid);
    if platform.validEndpoint(options.path) {
      RunShape(platform, config, env, w, options);
    }
    hide BuildRequest, OnWire, IsCorrelationId, ChooseCorrelationId, AfterRetries, Attempts, LastOutcome;
  }

  // ----- A run in terms of its outcomes -----

  /** An outcome after which an attempt is made again, if it may be: a transport failure or one of seven statuses. */
  predicate Passing(o: Outcome) {
    !o.Response? || o.status in {408, 425, 429, 500, 502, 503, 504}
  }

  predicate MayRepeat(options: RequestOptions) {
    || options.safety == ReadOnly || options.safety == Idempotent
    || (options.safety == IdempotencyProtected && options.idempotencyKey.Some?)
  }

  /** The exception for an outcome that is no success. */
  ghost predicate Reports(options: RequestOptions, cid: string, o: Outcome, e: JibitError) {
    && e.correlationId == Some(cid)
    && e.status == (if o.Response? then Some(o.status) else None)
    && (e.retryable <==> o.Response? && Passing(o) && MayRepeat(options))
    && (e.kind == Timeout <==> o == TimedOut)
    && (e.kind == Network <==> o == NetworkFailed)
    && (e.kind == Server <==> o.Response? && o.status >= 500)
    && (e.kind == Authentication <==> o.Response? && o.status == 401)
    && (e.kind == Authorization <==> o.Response? && o.status == 403)
    && (e.kind == Validation <==> o.Response? && (o.status == 400 || o.status == 422))
    && (e.kind == RateLimit <==> o.Response? && o.status == 429)
    && (e.kind == Business <==> o.Response? && (o.status == 402 || o.status == 404 || o.status == 409))
    && (e.kind == BadResponse <==>
          o.Response? && o.status < 500 && o.status !in {400, 401, 402, 403, 404, 409, 422, 429})
  }

  /** The whole of a run by its outcomes: every attempt but the last met a passing outcome of an operation that may be
      repeated; the last was a 2xx, or no passing outcome, or the last allowed, or may not be repeated. */
  lemma RunByOutcomes(platform: Platform, config: JibitConfig, env: Env, w: World, options: RequestOptions)
    requires config.Valid() && platform.validEndpoint(options.path)
    ensures
      var (w', r) := ExecuteSpec(platform, config, env, w, options);
      var k := |w'.sent| - |w.sent|;
      && 1 <= k <= config.retry.maxAttempts
      && (forall i :: |w.sent| <= i < |w'.sent| - 1 ==> Passing(env.outcomes(i)) && MayRepeat(options))
      && var o := env.outcomes(|w'.sent| - 1);
         var good := o.Response? && 200 <= o.status < 300;
         && (!good && k < config.retry.maxAttempts && MayRepeat(options) ==> !Passing(o))
         && (r.Ok? <==> good)
  {
    var (w', r) := ExecuteSpec(platform, config, env, w, options);
    var k := Attempts(config, env, w, options);
    RunShape(platform, config, env, w, options);
    StopIsFirstFinal(config, options, env, |w.sent|, 1);
    forall attempt: int | attempt >= 1
      ensures
        var o := OutcomeOf(env, |w.sent|, attempt);
        && (Passing(o) <==> TransientEnding(EndingOf(o)))
        && (MayRepeat(options) <==> Repeatable(options.safety, options.HasKey()))
    {
      RepeatableExactly(options.safety, options.HasKey(), EndingOf(OutcomeOf(env, |w.sent|, attempt)));
    }
    hide ExecuteSpec, StopFrom, BuildRequest, Passing, MayRepeat, TransientEnding, Repeatable, EndingOf;
    assert |w'.sent| - |w.sent| == k;
    assert env.outcomes(|w'.sent| - 1) == OutcomeOf(env, |w.sent|, k);
    forall i | |w.sent| <= i < |w'.sent| - 1 ensures Passing(env.outcomes(i)) && MayRepeat(options) {
      var j := i - |w.sent| + 1;
      assert OutcomeOf(env, |w.sent|, j) == env.outcomes(i);
      assert !Final(config, options, OutcomeOf(env, |w.sent|, j), j);
    }
  }

  /** The response of the outcome, or an exception that reports it. */
  ghost predicate Results(options: RequestOptions, cid: string, o: Outcome, r: Result<RawResponse, JibitError>) {
    match r
    case Ok(response) => o.Response? && response == RawResponse(o.status, o.content, cid)
    case Raised(e) => Reports(options, cid, o, e)
  }

  /** The last outcome decides what the caller gets: the response, or an exception that reports it. */
  lemma ResultByOutcome(platform: Platform, config: JibitConfig, env: Env, w: World, options: RequestOptions)
    requires config.Valid() && platform.validEndpoint(options.path)
    ensures
      var (w', r) := ExecuteSpec(platform, config, env, w, options);
      && |w'.sent| > 0
      && exists cid :: IsCorrelationId(env, w, options, cid) && Results(options, cid, env.outcomes(|w'.sent| - 1), r)
  {
    var w' := ExecuteSpec(platform, config, env, w, options).0;
    var cid := ChooseCorrelationId(env, w, options).0;
    RunShape(platform, config, env, w, options);
    assert LastOutcome(config, env, w, options) == env.outcomes(|w'.sent| - 1);
    assert IsCorrelationId(env, w, options, cid);
    hide AfterRetries, StopFrom, BuildRequest, Attempts, LastOutcome;
  }

  /** An endpoint that is refused raises a validation error and sends nothing. */
  lemma RefusedEndpoint(platform: Platform, config: JibitConfig, env: Env, w: World, options: RequestOptions)
    requires !platform.validEndpoint(options.path)
    ensures
      var (w', r) := ExecuteSpec(platform, config, env, w, options);
      w'.sent == w.sent && w'.events == w.events && r == Raised(JibitError(Validation, None, None, false))
  {
  }

  /** What the retry after attempt `j` logs. */
  function RetryEntry(cid: string, j: int, o: Outcome, delay: real): Event {
    RetryScheduled(cid, j, if o.Response? then HttpStatus(o.status) else TransportErrorReason, delay)
  }

  /** What the end of a run of `k` attempts logs. */
  function EndEntry(cid: string, k: int, r: Result<RawResponse, JibitError>): Event {
    match r
    case Ok(response) => Completed(cid, response.status, k)
    case Raised(e) => Failed(cid, e.kind)
  }

  lemma RetryEventAt(config: JibitConfig, env: Env, w: World, cid: string, n: nat, i: nat)
    requires i < n
    ensures RetryEvents(config, env, w, cid, n)[i]
      == RetryEntry(cid, i + 1, env.outcomes(|w.sent| + i), Delays(config.retry, env.draws, |w.slept|, n)[i])
  {
    assert Delays(config.retry, env.draws, |w.slept|, n)[i] == Delay(config.retry, i + 1, env.draws(|w.slept| + i));
    assert RetryEvents(config, env, w, cid, n)[i] == RetryScheduled(
      cid, i + 1, RetryReason(env.outcomes(|w.sent| + i)), Delay(config.retry, i + 1, env.draws(|w.slept| + i)));
  }

  lemma InTheMiddle<T>(x: seq<T>, a: T, y: seq<T>, z: T, i: nat)
    requires |x| < i <= |x| + |y|
    ensures (x + [a] + y + [z])[i] == y[i - |x| - 1]
  {
  }

  /** What a run adds to sleeps and events. */
  lemma RunParts(platform: Platform, config: JibitConfig, env: Env, w: World, options: RequestOptions)
    requires config.Valid() && platform.validEndpoint(options.path)
    ensures
      var (w', r) := ExecuteSpec(platform, config, env, w, options);
      var k := |w'.sent| - |w.sent|;
      var cid := ChooseCorrelationId(env, w, options).0;
      && k >= 1
      && w'.slept == w.slept + Delays(config.retry, env.draws, |w.slept|, k - 1)
      && w'.events == w.events + [Started(cid)] + RetryEvents(config, env, w, cid, k - 1) + [EndEntry(cid, k, r)]
  {
    var k := Attempts(config, env, w, options);
    RunShape(platform, config, env, w, options);
    assert |ExecuteSpec(platform, config, env, w, options).0.sent| - |w.sent| == k;
    hide StopFrom, BuildRequest, MapError, TransportFailure, Attempts, Delays, RetryEvents;
  }

  /** The trace in full: the start, for every retry its number, the reason and the delay slept, and the end with the
      status or the kind of the error. */
  ghost predicate TraceOf(env: Env, w: World, w': World, cid: string, r: Result<RawResponse, JibitError>) {
    var k := |w'.sent| - |w.sent|;
    && k >= 1 && |w'.slept| == |w.slept| + k - 1 && |w'.events| == |w.events| + k + 1
    && w'.events[|w.events|] == Started(cid)
    && (forall i :: |w.events| < i < |w'.events| - 1 ==>
          var j := i - |w.events|;
          w'.events[i] == RetryEntry(cid, j, env.outcomes(|w.sent| + j - 1), w'.slept[|w.slept| + j - 1]))
    && w'.events[|w'.events| - 1] == EndEntry(cid, k, r)
  }

  lemma TraceFits(config: JibitConfig, env: Env, w: World, w': World, cid: string, r: Result<RawResponse, JibitError>,
      k: int)
    requires k == |w'.sent| - |w.sent| >= 1
    requires w'.slept == w.slept + Delays(config.retry, env.draws, |w.slept|, k - 1)
    requires w'.events == w.events + [Started(cid)] + RetryEvents(config, env, w, cid, k - 1) + [EndEntry(cid, k, r)]
    ensures TraceOf(env, w, w', cid, r)
  {
    hide Delays, RetryEvents, RetryEntry, EndEntry;
    var retries := RetryEvents(config, env, w, cid, k - 1);
    var delays := Delays(config.retry, env.draws, |w.slept|, k - 1);
    forall i | |w.events| < i < |w'.events| - 1
      ensures
        var j := i - |w.events|;
        w'.events[i] == RetryEntry(cid, j, env.outcomes(|w.sent| + j - 1), w'.slept[|w.slept| + j - 1])
    {
      var j := i - |w.events|;
      RetryEventAt(config, env, w, cid, k - 1, j - 1);
      InTheMiddle(w.events, Started(cid), retries, EndEntry(cid, k, r), i);
      assert w'.slept[|w.slept| + j - 1] == delays[j - 1];
    }
  }

  lemma TraceByOutcomes(platform: Platform, config: JibitConfig, env: Env, w: World, options: RequestOptions)
    requires config.Valid() && platform.validEndpoint(options.path)
    ensures
      var (w', r) := ExecuteSpec(platform, config, env, w, options);
      exists cid :: IsCorrelationId(env, w, options, cid) && TraceOf(env, w, w', cid, r)
  {
    var (w', r) := ExecuteSpec(platform, config, env, w, options);
    var cid := ChooseCorrelationId(env, w, options).0;
    assert IsCorrelationId(env, w, options, cid);
    RunParts(platform, config, env, w, options);
    hide ExecuteSpec, ChooseCorrelationId, IsCorrelationId, Delays, RetryEvents, RetryEntry, EndEntry, TraceOf;
    TraceFits(config, env, w, w', cid, r, |w'.sent| - |w.sent|);
  }

  /** The delay of attempt `attempt`, written out. */
  function DelayFormula(config: RetryConfig, attempt: int, draw: real): real
    requires attempt >= 1
  {
    var doubled := config.baseDelay * Pow2(attempt - 1);
    var base := if doubled < config.maxDelay then doubled else config.maxDelay;
    var jittered := base + draw * (config.jitterRatio * base);
    if jittered < config.maxDelay then jittered else config.maxDelay
  }

  /** The sleeps in full: each is the delay of its attempt, for the draw made then. */
  lemma SleepsByDraws(platform: Platform, config: JibitConfig, env: Env, w: World, options: RequestOptions)
    requires config.Valid() && UnitDraws(env.draws)
    ensures
      var w' := ExecuteSpec(platform, config, env, w, options).0;
      forall i :: |w.slept| <= i < |w'.slept| ==>
        w'.slept[i] == DelayFormula(config.retry, i - |w.slept| + 1, env.draws(i))
  {
    var w' := ExecuteSpec(platform, config, env, w, options).0;
    var n := if platform.validEndpoint(options.path) then Attempts(config, env, w, options) - 1 else 0;
    assert w'.slept == w.slept + Delays(config.retry, env.draws, |w.slept|, n);
    hide ExecuteSpec, Delay, DelayFormula;
    forall i | |w.slept| <= i < |w'.slept|
      ensures w'.slept[i] == DelayFormula(config.retry, i - |w.slept| + 1, env.draws(i))
    {
      DelayIsFormula(config.retry, i - |w.slept| + 1, env.draws(i));
    }
  }

  lemma DelayIsFormula(config: RetryConfig, attempt: int, draw: real)
    requires config.Valid() && attempt >= 1 && 0.0 <= draw <= 1.0
    ensures Delay(config, attempt, draw) == DelayFormula(config, attempt, draw)
  {
    DelayExactly(config, attempt, draw);
    hide Delay;
  }

  lemma BoundsInNumbers(config: RetryConfig, n: nat)
    ensures FlatBound(config, n) == n as real * config.maxDelay
    ensures GeometricBound(config, n) == config.baseDelay * (1.0 + config.jitterRatio) * (Pow2(n) - 1.0)
  {
    hide Pow2;
  }

  lemma Smaller(x: real, y: real)
    ensures MinReal(x, y) <= x && MinReal(x, y) <= y
  {
  }

  /** The bounds on the sleeps of a run in numbers. */
  lemma SleepBoundsInNumbers(platform: Platform, config: JibitConfig, env: Env, w: World, options: RequestOptions)
    requires config.Valid() && UnitDraws(env.draws)
    ensures
      var slept := ExecuteSpec(platform, config, env, w, options).0.slept;
      var most := config.retry.maxAttempts - 1;
      && w.slept <= slept
      && 0.0 <= Sum(slept[|w.slept|..]) <= most as real * config.retry.maxDelay
      && Sum(slept[|w.slept|..]) <= config.retry.baseDelay * (1.0 + config.retry.jitterRatio) * (Pow2(most) - 1.0)
  {
    hide ExecuteSpec, Sum, FlatBound, GeometricBound, MinReal, Pow2;
    var most := config.retry.maxAttempts - 1;
    TotalSleepBounded(platform, config, env, w, options);
    BoundsInNumbers(config.retry, most);
    Smaller(FlatBound(config.retry, most), GeometricBound(config.retry, most));
  }
}

/** src/jibit/engine.py over an arbitrary transport: which outcome each send meets, which value
    each random draw gives and which identifiers are drawn are unconstrained functions. */
module Engine {
  import opened PyValues
  import opened Retry
  import opened Config

  // ----- Requests, outcomes and results -----

  datatype RequestBody = RequestBody(params: PyValue, json: PyValue, content: PyValue, multipart: PyValue)

  datatype RequestOptions = RequestOptions(
    service: ServiceName, operation: string, httpMethod: string, path: string, safety: OperationSafety,
    headers: map<string, string>, body: RequestBody, idempotencyKey: Option<string>, correlationId: Option<string>)
  {
    predicate HasKey() { idempotencyKey.Some? }
  }

  datatype TransportRequest = TransportRequest(httpMethod: string, url: string, headers: map<string, string>,
      body: RequestBody)

  /** The content of a response, as `json.loads` sees it. */
  datatype Content = NotJson | Json(value: PyValue)

  datatype Outcome = Response(status: int, content: Content) | TimedOut | NetworkFailed

  datatype RawResponse = RawResponse(status: int, content: Content, correlationId: string)

  datatype ErrorKind =
    | Configuration | Authentication | Authorization | Validation | Business | RateLimit
    | Timeout | Network | Server | BadResponse

  datatype JibitError = JibitError(kind: ErrorKind, status: Option<int>, correlationId: Option<string>, retryable: bool)

  datatype Event =
    | Started(correlationId: string)
    | RetryScheduled(correlationId: string, attempt: int, reason: Reason, delay: real)
    | Completed(correlationId: string, status: int, attempts: int)
    | Failed(correlationId: string, kind: ErrorKind)
    | TokenRefreshed | TokenRefreshFailed | TokenAcquired | AuditEmitFailed

  /** What one run may meet; nothing is assumed about any of it. */
  datatype Env = Env(outcomes: nat -> Outcome, draws: nat -> real, ids: nat -> string, clock: nat -> real)

  /** Everything that has happened so far: requests sent, sleeps, log events, identifiers and clock readings used up. */
  datatype World = World(sent: seq<TransportRequest>, slept: seq<real>, events: seq<Event>, idsDrawn: nat,
      clockReads: nat)

  // ----- The parts of the engine that only compute -----

  predicate Succeeded(o: Outcome) {
    o.Response? && 200 <= o.status < 300
  }

  function EndingOf(o: Outcome): Ending {
    if o.Response? then HttpEnding(o.status) else TransportEnding
  }

  function SetDefault(headers: map<string, string>, key: string, value: string): map<string, string> {
    if key in headers then headers else headers[key := value]
  }

  function BuildHeaders(options: RequestOptions, correlationId: string): map<string, string> {
    var accepted := SetDefault(options.headers, "Accept", "application/json");
    var correlated := SetDefault(accepted, "X-Correlation-ID", correlationId);
    if options.idempotencyKey.Some? then SetDefault(correlated, "Idempotency-Key", options.idempotencyKey.value)
    else correlated
  }

  function BuildUrl(config: JibitConfig, service: ServiceName, endpoint: string): string {
    var base :=
      if service in config.services && config.services[service].baseUrl.Some?
      then config.services[service].baseUrl.value else config.baseUrl;
    StripRight(base, '/') + "/" + StripLeft(endpoint, '/')
  }

  function BuildRequest(platform: Platform, config: JibitConfig, options: RequestOptions,
      correlationId: string): TransportRequest {
    TransportRequest(platform.upper(options.httpMethod), BuildUrl(config, options.service, options.path),
                     BuildHeaders(options, correlationId), options.body)
  }

  function MapError(options: RequestOptions, correlationId: string, status: int): JibitError {
    var retryable :=
      && status in {408, 425, 429, 500, 502, 503, 504}
      && (options.safety in {ReadOnly, Idempotent}
          || (options.safety == IdempotencyProtected && options.idempotencyKey.Some?));
    var kind :=
      if status == 401 then Authentication
      else if status == 403 then Authorization
      else if status in {400, 422} then Validation
      else if status == 429 then RateLimit
      else if status >= 500 then Server
      else if status in {402, 404, 409} then Business
      else BadResponse;
    JibitError(kind, Some(status), Some(correlationId), retryable)
  }

  /** The exception raised for a transport failure that is not retried. */
  function TransportFailure(o: Outcome, correlationId: string): JibitError {
    JibitError(if o == TimedOut then Timeout else Network, None, Some(correlationId), false)
  }

  /** `options.correlation_id or factory()`; the flag says whether the factory was asked. */
  function ChooseCorrelationId(env: Env, w: World, options: RequestOptions): (string, bool) {
    if options.correlationId.Some? && options.correlationId.value != "" then (options.correlationId.value, false)
    else (env.ids(w.idsDrawn), true)
  }

  const INVALID_ENDPOINT := JibitError(Validation, None, None, false)

  // ----- Specification: the outcome sequence decides the whole run -----

  /** An outcome that ends the run when it meets attempt `attempt`. */
  predicate Final(config: JibitConfig, options: RequestOptions, o: Outcome, attempt: int) {
    || Succeeded(o)
    || attempt >= config.retry.maxAttempts
    || !Repeatable(options.safety, options.HasKey())
    || !TransientEnding(EndingOf(o))
  }

  /** The outcome of attempt `attempt` of a run whose first send has index `first`. */
  function OutcomeOf(env: Env, first: nat, attempt: int): Outcome
    requires attempt >= 1
  {
    env.outcomes(first + attempt - 1)
  }

  /** The first attempt from `attempt` on whose outcome is final; `first` is the index of attempt 1's outcome. */
  function StopFrom(config: JibitConfig, options: RequestOptions, env: Env, first: nat, attempt: int): (k: int)
    requires attempt >= 1
    ensures k >= attempt
    decreases config.retry.maxAttempts - attempt
  {
    if Final(config, options, OutcomeOf(env, first, attempt), attempt) then attempt
    else StopFrom(config, options, env, first, attempt + 1)
  }

  function Repeat<T>(x: T, n: nat): (r: seq<T>)
    ensures |r| == n && forall i :: 0 <= i < n ==> r[i] == x
  {
    seq(n, i => x)
  }

  function RetryReason(o: Outcome): Reason {
    if o.Response? then HttpStatus(o.status) else TransportErrorReason
  }

  function RetryEvents(config: JibitConfig, env: Env, w: World, correlationId: string, n: nat): (r: seq<Event>)
    ensures |r| == n
  {
    seq(n, i requires 0 <= i =>
      RetryScheduled(correlationId, i + 1, RetryReason(env.outcomes(|w.sent| + i)),
                     Delay(config.retry, i + 1, env.draws(|w.slept| + i))))
  }

  function ResultOf(options: RequestOptions, o: Outcome, correlationId: string): Result<RawResponse, JibitError> {
    if Succeeded(o) then Ok(RawResponse(o.status, o.content, correlationId))
    else if o.Response? then Raised(MapError(options, correlationId, o.status))
    else Raised(TransportFailure(o, correlationId))
  }

  function LastEvent(options: RequestOptions, o: Outcome, correlationId: string, attempts: int): Event {
    match ResultOf(options, o, correlationId)
    case Ok(r) => Completed(correlationId, r.status, attempts)
    case Raised(e) => Failed(correlationId, e.kind)
  }

  /** The world once the run has started and `n` attempts have been sent and retried. */
  function AfterRetries(platform: Platform, config: JibitConfig, env: Env, w: World, options: RequestOptions,
      n: nat): World {
    var (cid, drawn) := ChooseCorrelationId(env, w, options);
    w.(sent := w.sent + Repeat(BuildRequest(platform, config, options, cid), n),
       slept := w.slept + Delays(config.retry, env.draws, |w.slept|, n),
       events := w.events + [Started(cid)] + RetryEvents(config, env, w, cid, n),
       idsDrawn := if drawn then w.idsDrawn + 1 else w.idsDrawn)
  }

  function Attempts(config: JibitConfig, env: Env, w: World, options: RequestOptions): (k: int)
    ensures k >= 1
  {
    StopFrom(config, options, env, |w.sent|, 1)
  }

  function LastOutcome(config: JibitConfig, env: Env, w: World, options: RequestOptions): Outcome {
    OutcomeOf(env, |w.sent|, Attempts(config, env, w, options))
  }

  /** The whole run as one step. */
  function ExecuteSpec(platform: Platform, config: JibitConfig, env: Env, w: World,
      options: RequestOptions): (World, Result<RawResponse, JibitError>) {
    var (cid, drawn) := ChooseCorrelationId(env, w, options);
    if !platform.validEndpoint(options.path) then
      (w.(idsDrawn := if drawn then w.idsDrawn + 1 else w.idsDrawn), Raised(INVALID_ENDPOINT))
    else
      var k := Attempts(config, env, w, options);
      var o := LastOutcome(config, env, w, options);
      var w' := AfterRetries(platform, config, env, w, options, k - 1);
      (w'.(sent := w'.sent + [BuildRequest(platform, config, options, cid)],
           events := w'.events + [LastEvent(options, o, cid, k)]),
       ResultOf(options, o, cid))
  }

  lemma RepeatStep<T>(x: T, n: nat)
    ensures Repeat(x, n + 1) == Repeat(x, n) + [x]
  {
  }

  lemma DelaysStep(config: RetryConfig, draws: nat -> real, first: nat, n: nat)
    ensures Delays(config, draws, first, n + 1) == Delays(config, draws, first, n)
        + [Delay(config, n + 1, draws(first + n))]
  {
  }

  lemma RetryEventsStep(config: JibitConfig, env: Env, w: World, cid: string, n: nat)
    ensures RetryEvents(config, env, w, cid, n + 1) == RetryEvents(config, env, w, cid, n)
      + [RetryScheduled(cid, n + 1, RetryReason(env.outcomes(|w.sent| + n)),
          Delay(config.retry, n + 1, env.draws(|w.slept| + n)))]
  {
  }

  lemma AppendAssociates<T>(a: seq<T>, b: seq<T>, c: seq<T>)
    ensures a + (b + c) == (a + b) + c
  {
  }

  lemma AfterNoRetries(platform: Platform, config: JibitConfig, env: Env, w: World, options: RequestOptions)
    ensures
      var (cid, drawn) := ChooseCorrelationId(env, w, options);
      AfterRetries(platform, config, env, w, options, 0) ==
      w.(events := w.events + [Started(cid)], idsDrawn := if drawn then w.idsDrawn + 1 else w.idsDrawn)
  {
  }

  /** One more retried attempt appends one send, one sleep and one event. */
  lemma AfterRetriesStep(platform: Platform, config: JibitConfig, env: Env, w: World, options: RequestOptions, n: nat)
    ensures
      var (cid, _) := ChooseCorrelationId(env, w, options);
      var w' := AfterRetries(platform, config, env, w, options, n);
      var delay := Delay(config.retry, n + 1, env.draws(|w.slept| + n));
      AfterRetries(platform, config, env, w, options, n + 1) == w'.(
        sent := w'.sent + [BuildRequest(platform, config, options, cid)],
        slept := w'.slept + [delay],
        events := w'.events + [RetryScheduled(cid, n + 1, RetryReason(env.outcomes(|w.sent| + n)), delay)])
    ensures
      var w' := AfterRetries(platform, config, env, w, options, n);
      |w'.sent| == |w.sent| + n && |w'.slept| == |w.slept| + n
  {
    var (cid, _) := ChooseCorrelationId(env, w, options);
    var request := BuildRequest(platform, config, options, cid);
    var delay := Delay(config.retry, n + 1, env.draws(|w.slept| + n));
    RepeatStep(request, n);
    AppendAssociates(w.sent, Repeat(request, n), [request]);
    DelaysStep(config.retry, env.draws, |w.slept|, n);
    AppendAssociates(w.slept, Delays(config.retry, env.draws, |w.slept|, n), [delay]);
    RetryEventsStep(config, env, w, cid, n);
    AppendAssociates(w.events + [Started(cid)], RetryEvents(config, env, w, cid, n),
                     [RetryScheduled(cid, n + 1, RetryReason(env.outcomes(|w.sent| + n)), delay)]);
  }

  /** What one attempt decides: a success stops the run, and the policy retries exactly an outcome that is not final. */
  lemma AttemptDecides(config: JibitConfig, options: RequestOptions, env: Env, first: nat, attempt: int, draw: real)
    requires config.Valid() && 1 <= attempt <= config.retry.maxAttempts
    ensures
      var o := OutcomeOf(env, first, attempt);
      var d := Decide(config.retry, attempt, options.safety, EndingOf(o), options.HasKey(), draw);
      && (d.shouldRetry ==> attempt < config.retry.maxAttempts)
      && (d.shouldRetry ==> d.delay == Delay(config.retry, attempt, draw) && d.reason == RetryReason(o))
      && (Succeeded(o) || !d.shouldRetry ==> StopFrom(config, options, env, first, attempt) == attempt)
      && (!Succeeded(o) && d.shouldRetry ==>
            StopFrom(config, options, env, first, attempt) == StopFrom(config, options, env, first, attempt + 1))
  {
    DecideExactly(config.retry, attempt, options.safety, EndingOf(OutcomeOf(env, first, attempt)), options.HasKey(),
        draw);
  }

  // ----- The engine itself -----

  /** The mutable surroundings of all SDK objects of one client. */
  class Host {
    const env: Env
    var sent: seq<TransportRequest>
    var slept: seq<real>
    var events: seq<Event>
    var idsDrawn: nat
    var clockReads: nat

    constructor (env: Env)
      ensures this.env == env && Snapshot() == World([], [], [], 0, 0)
    {
      this.env := env;
      sent, slept, events, idsDrawn, clockReads := [], [], [], 0, 0;
    }

    ghost function Snapshot(): World
      reads this
    {
      World(sent, slept, events, idsDrawn, clockReads)
    }

    method Send(request: TransportRequest) returns (o: Outcome)
      modifies this`sent
      ensures o == env.outcomes(|old(sent)|) && sent == old(sent) + [request]
    {
      o := env.outcomes(|sent|);
      sent := sent + [request];
    }

    method Sleep(delay: real)
      modifies this`slept
      ensures slept == old(slept) + [delay]
    {
      slept := slept + [delay];
    }

    method Emit(e: Event)
      modifies this`events
      ensures events == old(events) + [e]
    {
      events := events + [e];
    }

    method ReadClock() returns (now: real)
      modifies this`clockReads
      ensures now == env.clock(old(clockReads)) && clockReads == old(clockReads) + 1
    {
      now := env.clock(clockReads);
      clockReads := clockReads + 1;
    }

    method DrawId() returns (id: string)
      modifies this`idsDrawn
      ensures id == env.ids(old(idsDrawn)) && idsDrawn == old(idsDrawn) + 1
    {
      id := env.ids(idsDrawn);
      idsDrawn := idsDrawn + 1;
    }
  }

  class RequestEngine {
    const platform: Platform
    const config: JibitConfig
    const host: Host

    constructor (platform: Platform, config: JibitConfig, host: Host)
      ensures this.platform == platform && this.config == config && this.host == host
    {
      this.platform, this.config, this.host := platform, config, host;
    }

    method Execute(options: RequestOptions) returns (r: Result<RawResponse, JibitError>)
      requires config.Valid()
      modifies host
      ensures (host.Snapshot(), r) == ExecuteSpec(platform, config, host.env, old(host.Snapshot()), options)
    {
      hide Decide, Delay, BuildRequest, MapError, TransportFailure, RetryReason, AfterRetries, StopFrom, EndingOf;
      ghost var w := host.Snapshot();
      var cid: string;
      if options.correlationId.Some? && options.correlationId.value != "" {
        cid := options.correlationId.value;
      } else {
        cid := host.DrawId();
      }
      if !platform.validEndpoint(options.path) {
        return Raised(INVALID_ENDPOINT);
      }
      var request := BuildRequest(platform, config, options, cid);
      host.Emit(Started(cid));
      AfterNoRetries(platform, config, host.env, w, options);
      var attempt := 1;
      while true
        invariant 1 <= attempt <= config.retry.maxAttempts
        invariant StopFrom(config, options, host.env, |w.sent|, attempt) == Attempts(config, host.env, w, options)
        invariant host.Snapshot() == AfterRetries(platform, config, host.env, w, options, attempt - 1)
        decreases config.retry.maxAttempts - attempt
      {
        AfterRetriesStep(platform, config, host.env, w, options, attempt - 1);
        AttemptDecides(config, options, host.env, |w.sent|, attempt, host.env.draws(|host.slept|));
        var outcome := host.Send(request);
        if Succeeded(outcome) {
          host.Emit(Completed(cid, outcome.status, attempt));
          return Ok(RawResponse(outcome.status, outcome.content, cid));
        }
        var draw := host.env.draws(|host.slept|);
        var decision := Decide(config.retry, attempt, options.safety, EndingOf(outcome), options.HasKey(), draw);
        if decision.shouldRetry {
          host.Emit(RetryScheduled(cid, attempt, decision.reason, decision.delay));
          host.Sleep(decision.delay);
          attempt := attempt + 1;
        } else {
          var error :=
            if outcome.Response? then MapError(options, cid, outcome.status) else TransportFailure(outcome, cid);
          host.Emit(Failed(cid, error.kind));
          return Raised(error);
        }
      }
    }
  }

  // ----- What the specification promises -----

  /** The number of sends is the position of the first final outcome, never beyond the limit. */
  lemma {:induction false} StopIsFirstFinal(config: JibitConfig, options: RequestOptions, env: Env, first: nat,
      attempt: int)
    requires config.retry.Valid() && 1 <= attempt <= config.retry.maxAttempts
    ensures var k := StopFrom(config, options, env, first, attempt);
      && attempt <= k <= config.retry.maxAttempts
      && Final(config, options, OutcomeOf(env, first, k), k)
      && (forall j :: attempt <= j < k ==> !Final(config, options, OutcomeOf(env, first, j), j))
    decreases config.retry.maxAttempts - attempt
  {
    if !Final(config, options, OutcomeOf(env, first, attempt), attempt) {
      StopIsFirstFinal(config, options, env, first, attempt + 1);
    }
  }

  /** The events of a run with `k` attempts: one start, `k - 1` scheduled retries numbered in order, one end. */
  ghost predicate EventsOfRun(events: seq<Event>, correlationId: string, k: int, succeeded: bool)
    requires k >= 1
  {
    && |events| == k + 1
    && events[0] == Started(correlationId)
    && (forall i :: 1 <= i < k ==>
          events[i].RetryScheduled? && events[i].attempt == i && events[i].correlationId == correlationId)
    && (if succeeded then events[k].Completed? && events[k].attempts == k else events[k].Failed?)
    && events[k].correlationId == correlationId
  }

  /** The run of `k` attempts sends the same request `k` times, sleeps `k - 1` times and logs one well-formed trace;
      it succeeds exactly when its last outcome does. */
  lemma RunShape(platform: Platform, config: JibitConfig, env: Env, w: World, options: RequestOptions)
    requires config.Valid() && platform.validEndpoint(options.path)
    ensures
      var (w', r) := ExecuteSpec(platform, config, env, w, options);
      var k := Attempts(config, env, w, options);
      var cid := ChooseCorrelationId(env, w, options).0;
      && 1 <= k <= config.retry.maxAttempts
      && w'.sent == w.sent + Repeat(BuildRequest(platform, config, options, cid), k)
      && w'.slept == w.slept + Delays(config.retry, env.draws, |w.slept|, k - 1)
      && w.events <= w'.events
      && EventsOfRun(w'.events[|w.events|..], cid, k, r.Ok?)
      && w'.clockReads == w.clockReads
      && (r.Ok? <==> Succeeded(LastOutcome(config, env, w, options)))
  {
    hide BuildRequest, MapError, TransportFailure, RetryReason, Final;
    var k := Attempts(config, env, w, options);
    var cid := ChooseCorrelationId(env, w, options).0;
    var request := BuildRequest(platform, config, options, cid);
    StopIsFirstFinal(config, options, env, |w.sent|, 1);
    RepeatStep(request, k - 1);
    AppendAssociates(w.sent, Repeat(request, k - 1), [request]);
    var last := LastEvent(options, LastOutcome(config, env, w, options), cid, k);
    var events := [Started(cid)] + RetryEvents(config, env, w, cid, k - 1) + [last];
    assert ExecuteSpec(platform, config, env, w, options).0.events == w.events + events;
    assert (w.events + events)[|w.events|..] == events;
  }

  /** An operation that must not be repeated is sent exactly once, whatever happens to it. */
  lemma UnrepeatableSentOnce(platform: Platform, config: JibitConfig, env: Env, w: World, options: RequestOptions)
    requires config.Valid() && !Repeatable(options.safety, options.HasKey())
    ensures var sent := ExecuteSpec(platform, config, env, w, options).0.sent;
      |sent| == |w.sent| + (if platform.validEndpoint(options.path) then 1 else 0)
  {
    StopIsFirstFinal(config, options, env, |w.sent|, 1);
  }

  /** An HTTP error carries the retryable flag exactly when its status is transient and the operation repeatable,
      and then every allowed attempt was made; any other error does not carry it. */
  lemma RetryableMeansExhausted(platform: Platform, config: JibitConfig, env: Env, w: World, options: RequestOptions)
    requires config.Valid()
    ensures
      var (w', r) := ExecuteSpec(platform, config, env, w, options);
      r.Raised? ==>
        && (r.error.retryable <==>
              && r.error.status.Some? && r.error.status.value in TRANSIENT_STATUS_CODES
              && Repeatable(options.safety, options.HasKey()))
        && (r.error.retryable ==> |w'.sent| - |w.sent| == config.retry.maxAttempts)
  {
    StopIsFirstFinal(config, options, env, |w.sent|, 1);
  }

  /** The run fails as an authentication error, which alone triggers token recovery, exactly when its last response
      is a 401; and as a timeout, network or server error exactly when the last outcome leaves open whether it was
      accepted. */
  lemma ErrorKindOfRun(platform: Platform, config: JibitConfig, env: Env, w: World, options: RequestOptions)
    requires config.Valid() && platform.validEndpoint(options.path)
    ensures
      var r := ExecuteSpec(platform, config, env, w, options).1;
      var o := LastOutcome(config, env, w, options);
      && (r.Raised? && r.error.kind == Authentication <==> o.Response? && o.status == 401)
      && (r.Raised? && r.error.kind == Timeout <==> o.TimedOut?)
      && (r.Raised? && r.error.kind == Network <==> o.NetworkFailed?)
      && (r.Raised? && r.error.kind == Server <==> o.Response? && o.status >= 500)
      && (r.Raised? ==> r.error.status == if o.Response? then Some(o.status) else None)
  {
    hide AfterRetries, StopFrom;
  }

  lemma {:induction false} BoundsGrow(config: RetryConfig, n: nat, m: nat)
    requires config.Valid() && n <= m
    ensures FlatBound(config, n) <= FlatBound(config, m)
    ensures GeometricBound(config, n) <= GeometricBound(config, m)
    decreases m
  {
    if n < m {
      BoundsGrow(config, n, m - 1);
      BoundsStep(config, m);
      MulMonotone(0.0, Uncapped(config, m), 1.0 + config.jitterRatio);
    }
  }

  /** The sleeps of one run add up to no more than the smaller of the two bounds for the attempt limit. */
  lemma TotalSleepBounded(platform: Platform, config: JibitConfig, env: Env, w: World, options: RequestOptions)
    requires config.Valid() && UnitDraws(env.draws)
    ensures
      var slept := ExecuteSpec(platform, config, env, w, options).0.slept;
      && w.slept <= slept
      && 0.0 <= Sum(slept[|w.slept|..]) <= MinReal(FlatBound(config.retry, config.retry.maxAttempts - 1),
                                                  GeometricBound(config.retry, config.retry.maxAttempts - 1))
  {
    var n := if platform.validEndpoint(options.path) then Attempts(config, env, w, options) - 1 else 0;
    var delays := Delays(config.retry, env.draws, |w.slept|, n);
    StopIsFirstFinal(config, options, env, |w.sent|, 1);
    TotalDelayBounds(config.retry, env.draws, |w.slept|, n);
    BoundsGrow(config.retry, n, config.retry.maxAttempts - 1);
    var slept := ExecuteSpec(platform, config, env, w, options).0.slept;
    assert slept == w.slept + delays;
    assert slept[|w.slept|..] == delays;
  }

  /** The sleeps of one run never get shorter and never exceed the configured maximum. */
  lemma SleepsNeverDecrease(platform: Platform, config: JibitConfig, env: Env, w: World, options: RequestOptions)
    requires config.Valid() && UnitDraws(env.draws)
    ensures
      var slept := ExecuteSpec(platform, config, env, w, options).0.slept;
      && w.slept <= slept
      && (forall i, j :: |w.slept| <= i <= j < |slept| ==> 0.0 <= slept[i] <= slept[j] <= config.retry.maxDelay)
  {
    var n := if platform.validEndpoint(options.path) then Attempts(config, env, w, options) - 1 else 0;
    var delays := Delays(config.retry, env.draws, |w.slept|, n);
    var slept := ExecuteSpec(platform, config, env, w, options).0.slept;
    assert slept == w.slept + delays;
    forall i, j | |w.slept| <= i <= j < |slept| ensures 0.0 <= slept[i] <= slept[j] <= config.retry.maxDelay {
      DelaysGrow(config.retry, env.draws, |w.slept|, n, i - |w.slept|, j - |w.slept|);
    }
  }
}

/** src/jibit/services/base.py: the audited executor around the authenticated engine. */
module Audit {
  import opened PyValues
  import opened Retry
  import opened Config
  import opened Engine
  import opened Tokens
  import opened Stores
  import opened Provider
  import opened TokenLifecycle
  import opened Authenticated

  datatype AuditOutcome = SucceededOutcome | FailedOutcome | UnknownOutcome

  datatype AuditEvent = AuditEvent(
    correlationId: string, service: ServiceName, operation: string, outcome: AuditOutcome,
    errorKind: Option<ErrorKind>, status: Option<int>)

  function OutcomeFor(e: JibitError): AuditOutcome {
    if e.kind in {Timeout, Network, Server, BadResponse} then UnknownOutcome else FailedOutcome
  }

  /** The event for a result; an error without a correlation identifier is reported as unavailable. */
  function EventFor(options: RequestOptions, r: Result<RawResponse, JibitError>): AuditEvent {
    match r
    case Ok(response) => AuditEvent(response.correlationId, options.service, options.operation, SucceededOutcome,
        None, Some(response.status))
    case Raised(e) =>
      var cid := if e.correlationId.Some? && e.correlationId.value != "" then e.correlationId.value else "unavailable";
      AuditEvent(cid, options.service, options.operation, OutcomeFor(e), Some(e.kind), e.status)
  }

  /** An application's sink: it is offered every event, and raises on whichever calls it likes. */
  class AuditSink {
    const raises: nat -> bool
    var offered: seq<AuditEvent>

    constructor (raises: nat -> bool)
      ensures this.raises == raises && offered == []
    {
      this.raises, offered := raises, [];
    }

    method Emit(e: AuditEvent) returns (raised: bool)
      modifies this
      ensures offered == old(offered) + [e] && raised == raises(|old(offered)|)
    {
      raised := raises(|offered|);
      offered := offered + [e];
    }
  }

  /** The call, the one event offered to the sink, and the log entry if the sink raised. */
  function AuditedSpec(a: Authority, env: Env, raises: nat -> bool, s: AuthState, offered: seq<AuditEvent>,
      options: RequestOptions): (AuthState, seq<AuditEvent>, Result<RawResponse, JibitError>) {
    var (s', r) := AuthorizedSpec(a, env, s, options);
    (if raises(|offered|) then s'.(w := LogEvent(s'.w, AuditEmitFailed)) else s', offered + [EventFor(options, r)], r)
  }

  class AuditedRequestExecutor {
    const executor: AuthenticatedRequestEngine
    const sink: AuditSink

    constructor (executor: AuthenticatedRequestEngine, sink: AuditSink)
      ensures this.executor == executor && this.sink == sink
    {
      this.executor, this.sink := executor, sink;
    }

    ghost predicate Valid() {
      && executor.Valid()
      && executor.authenticator.store.Footprint() != sink as object
      && executor.engine.host as object != sink
    }

    method Execute(options: RequestOptions) returns (r: Result<RawResponse, JibitError>)
      requires Valid()
      modifies executor.engine.host, executor.authenticator.store.Footprint(), sink
      ensures (executor.authenticator.State(), sink.offered, r)
           == AuditedSpec(executor.authenticator.authority, executor.engine.host.env, sink.raises,
                          old(executor.authenticator.State()), old(sink.offered), options)
    {
      hide AuthorizedSpec;
      r := executor.Execute(options);
      var raised := sink.Emit(EventFor(options, r));
      if raised {
        executor.engine.host.Emit(AuditEmitFailed);
      }
    }
  }

  // ----- One event per call, and the call unaffected by its audit -----

  /** A run of audited calls on one authenticator. */
  function AuditedRun(a: Authority, env: Env, raises: nat -> bool, s: AuthState, offered: seq<AuditEvent>,
      calls: seq<RequestOptions>): (AuthState, seq<AuditEvent>, seq<Result<RawResponse, JibitError>>)
    decreases |calls|
  {
    if calls == [] then (s, offered, [])
    else
      var (s', offered', r) := AuditedSpec(a, env, raises, s, offered, calls[0]);
      var (s'', offered'', results) := AuditedRun(a, env, raises, s', offered', calls[1..]);
      (s'', offered'', [r] + results)
  }

  /** Each call of a run offers exactly one event, the one for its own result, whichever calls the sink raises on. */
  lemma {:induction false} OneEventPerCall(a: Authority, env: Env, raises: nat -> bool, s: AuthState,
      offered: seq<AuditEvent>, calls: seq<RequestOptions>)
    ensures
      var (s', offered', results) := AuditedRun(a, env, raises, s, offered, calls);
      && |results| == |calls|
      && offered' == offered + seq(|calls|, i requires 0 <= i < |calls| => EventFor(calls[i], results[i]))
    decreases |calls|
  {
    hide AuditedSpec, EventFor;
    if calls != [] {
      var (s1, offered1, r) := AuditedSpec(a, env, raises, s, offered, calls[0]);
      OneEvent(a, env, raises, s, offered, calls[0]);
      OneEventPerCall(a, env, raises, s1, offered1, calls[1..]);
      var results := AuditedRun(a, env, raises, s1, offered1, calls[1..]).2;
      var rest := seq(|calls| - 1, i requires 0 <= i < |calls| - 1 => EventFor(calls[1..][i], results[i]));
      assert seq(|calls|, i requires 0 <= i < |calls| => EventFor(calls[i], ([r] + results)[i]))
        == [EventFor(calls[0], r)] + rest;
      AppendAssociates(offered, [EventFor(calls[0], r)], rest);
    }
  }

  lemma OneEvent(a: Authority, env: Env, raises: nat -> bool, s: AuthState, offered: seq<AuditEvent>,
      options: RequestOptions)
    ensures
      var (s', offered', r) := AuditedSpec(a, env, raises, s, offered, options);
      offered' == offered + [EventFor(options, r)]
  {
    hide AuthorizedSpec, EventFor;
  }

  // ----- What "failed" means -----

  /** The provider may have accepted the submission although the caller saw no success. */
  predicate Uncertain(o: Outcome) {
    o.TimedOut? || o.NetworkFailed? || o.status >= 500
  }

  /** If the call is audited as failed, none of its authorized submissions had an uncertain outcome. */
  ghost predicate FailedIsTruthful(a: Authority, env: Env, s: AuthState, options: RequestOptions) {
    var (s', r) := AuthorizedSpec(a, env, s, options);
    EventFor(options, r).outcome == FailedOutcome ==>
      forall i :: |s.w.sent| <= i < |s'.w.sent| && IsAuthorized(s'.w.sent[i]) ==> !Uncertain(env.outcomes(i))
  }

  /** When only one attempt is made, the one submission decides the result. */
  lemma SingleSubmission(a: Authority, env: Env, s: AuthState, options: RequestOptions, t: TokenState)
    requires a.config.Valid()
    requires !Repeatable(options.safety, options.HasKey()) || a.config.retry.maxAttempts == 1
    ensures
      var (s', r) := SendUnder(a, env, s, options, t);
      && s.w.sent <= s'.w.sent
      && |s'.w.sent| <= |s.w.sent| + 1
      && (|s'.w.sent| > |s.w.sent| ==>
            var authorized := Authorize(options, t);
            r == ResultOf(authorized, env.outcomes(|s.w.sent|), ChooseCorrelationId(env, s.w, authorized).0))
  {
    var authorized := Authorize(options, t);
    if a.platform.validEndpoint(options.path) {
      StopIsFirstFinal(a.config, authorized, env, |s.w.sent|, 1);
      RunShape(a.platform, a.config, env, s.w, authorized);
    }
  }

  lemma FailureIsCertain(options: RequestOptions, o: Outcome, cid: string)
    ensures var r := ResultOf(options, o, cid);
      r.Raised? && OutcomeFor(r.error) == FailedOutcome ==> !Uncertain(o)
    ensures AuthenticationFailed(ResultOf(options, o, cid)) ==> !Uncertain(o)
  {
  }

  lemma SingleAttemptIsTruthful(a: Authority, env: Env, s: AuthState, options: RequestOptions)
    requires a.config.Valid()
    requires !Repeatable(options.safety, options.HasKey()) || a.config.retry.maxAttempts == 1
    ensures FailedIsTruthful(a, env, s, options)
  {
    hide GetTokenSpec, RecoverSpec, SendUnder, ResultOf, OutcomeFor, Uncertain, ChooseCorrelationId;
    var (s1, got) := GetTokenSpec(a, env, s);
    GetTokenTraffic(a, env, s);
    if got.Ok? {
      var (s2, first) := SendUnder(a, env, s1, options, got.value);
      SingleSubmission(a, env, s1, options, got.value);
      FailureIsCertain(Authorize(options, got.value), env.outcomes(|s1.w.sent|),
          ChooseCorrelationId(env, s1.w, Authorize(options, got.value)).0);
      if AuthenticationFailed(first) && CanReplay(options) {
        var (s3, recovered) := RecoverSpec(a, env, s2, got.value.access);
        RecoverTraffic(a, env, s2, got.value.access);
        if recovered.Ok? {
          SingleSubmission(a, env, s3, options, recovered.value);
          FailureIsCertain(Authorize(options, recovered.value), env.outcomes(|s3.w.sent|),
              ChooseCorrelationId(env, s3.w, Authorize(options, recovered.value)).0);
        }
      }
    }
  }

  /** A timeout answered by a retry that the provider then rejects as a conflict. */
  function LostThenConflict(): Env {
    Env(i => if i == 0 then TimedOut else Response(409, NotJson), i => 0.0, i => "", i => 0.0)
  }

  const STORED := TokenState("access", None, None, None, "Bearer", [])

  function StoredState(a: Authority): AuthState {
    AuthState(World([], [], [], 0, 0), Save(a.platform, a.kind, STORED))
  }

  lemma StoredTokenIsUsed(a: Authority, env: Env)
    requires a.platform.Valid()
    ensures GetTokenSpec(a, env, StoredState(a)) == (Tick(StoredState(a)), Ok(STORED))
  {
    SavedTokenLoads(a, STORED);
    hide RefreshOrAcquireSpec, Load, Save;
  }

  lemma SecondAttemptConflicts(a: Authority, s: AuthState, options: RequestOptions)
    requires a.config.Valid() && a.platform.validEndpoint(options.path) && s.w.sent == []
    requires Repeatable(options.safety, options.HasKey()) && a.config.retry.maxAttempts >= 2
    ensures
      var (s', r) := SendUnder(a, LostThenConflict(), s, options, STORED);
      && |s'.w.sent| == 2
      && IsAuthorized(s'.w.sent[0])
      && r.Raised? && r.error.kind == Business
  {
    var env := LostThenConflict();
    var authorized := Authorize(options, STORED);
    assert StopFrom(a.config, authorized, env, 0, 1) == 2 by {
      assert StopFrom(a.config, authorized, env, 0, 2) == 2;
    }
    RunShape(a.platform, a.config, env, s.w, authorized);
    var request := BuildRequest(a.platform, a.config, authorized, ChooseCorrelationId(env, s.w, authorized).0);
    assert IsAuthorized(request);
    assert LastOutcome(a.config, env, s.w, authorized) == Response(409, NotJson);
    hide AfterRetries, StopFrom, BuildRequest;
  }

  lemma RetriedTimeoutIsAuditedAsFailed(a: Authority, options: RequestOptions)
    requires a.Valid() && a.platform.validEndpoint(options.path)
    requires Repeatable(options.safety, options.HasKey()) && a.config.retry.maxAttempts >= 2
    ensures !FailedIsTruthful(a, LostThenConflict(), StoredState(a), options)
  {
    hide GetTokenSpec, SendUnder, Save, ReplaySpec;
    var env, s := LostThenConflict(), StoredState(a);
    StoredTokenIsUsed(a, env);
    SecondAttemptConflicts(a, Tick(s), options);
    assert AuthorizedSpec(a, env, s, options) == SendUnder(a, env, Tick(s), options, STORED);
    assert Uncertain(env.outcomes(0));
  }

  /** "Failed" can be relied on, whatever the provider does, exactly for operations that are attempted only once:
      those that must not be repeated, or any under a limit of one attempt. */
  lemma FailedIsTruthfulIff(a: Authority, options: RequestOptions)
    requires a.Valid() && a.platform.validEndpoint(options.path)
    ensures (forall env, s :: FailedIsTruthful(a, env, s, options))
      <==> !Repeatable(options.safety, options.HasKey()) || a.config.retry.maxAttempts == 1
  {
    if !Repeatable(options.safety, options.HasKey()) || a.config.retry.maxAttempts == 1 {
      forall env, s ensures FailedIsTruthful(a, env, s, options) {
        SingleAttemptIsTruthful(a, env, s, options);
      }
    } else {
      RetriedTimeoutIsAuditedAsFailed(a, options);
    }
  }

  // ----- What "succeeded" means -----

  /** A success is the last request sent, under a token, and answered with a 2xx. */
  ghost predicate EndsIn2xx(env: Env, w: World, w': World, response: RawResponse) {
    && |w'.sent| > |w.sent|
    && IsAuthorized(w'.sent[|w'.sent| - 1])
    && var o := env.outcomes(|w'.sent| - 1);
       Succeeded(o) && response.status == o.status && response.content == o.content
  }

  lemma SendEndsIn2xx(a: Authority, env: Env, s: AuthState, options: RequestOptions, t: TokenState)
    requires a.config.Valid()
    ensures var (s', r) := SendUnder(a, env, s, options, t);
      |s'.w.sent| >= |s.w.sent| && (r.Ok? ==> EndsIn2xx(env, s.w, s'.w, r.value))
  {
    SendUnderEnds(a, env, s, options, t);
    if a.platform.validEndpoint(options.path) {
      RunShape(a.platform, a.config, env, s.w, Authorize(options, t));
    }
    hide StopFrom, AfterRetries, BuildRequest;
  }

  /** A call audited as succeeded was answered with a 2xx: its last submission was accepted. */
  lemma SucceededIsTruthful(a: Authority, env: Env, s: AuthState, options: RequestOptions)
    requires a.config.Valid()
    ensures
      var (s', r) := AuthorizedSpec(a, env, s, options);
      EventFor(options, r).outcome == SucceededOutcome ==> r.Ok? && EndsIn2xx(env, s.w, s'.w, r.value)
  {
    hide GetTokenSpec, RecoverSpec, SendUnder;
    var (s1, got) := GetTokenSpec(a, env, s);
    GetTokenTraffic(a, env, s);
    if got.Ok? {
      SendEndsIn2xx(a, env, s1, options, got.value);
      var (s2, first) := SendUnder(a, env, s1, options, got.value);
      if AuthenticationFailed(first) && CanReplay(options) {
        var (s3, recovered) := RecoverSpec(a, env, s2, got.value.access);
        RecoverTraffic(a, env, s2, got.value.access);
        if recovered.Ok? {
          SendEndsIn2xx(a, env, s3, options, recovered.value);
        }
      }
    }
  }

  // ----- Typed requests: the response model is validated after the audit -----

  /** `parse_model_response`; `fits` is the response model's validation of a JSON value. */
  function ParseModelResponse(fits: PyValue -> bool, raw: RawResponse): Result<RawResponse, JibitError> {
    if raw.content.Json? && fits(raw.content.value) then Ok(raw)
    else Raised(JibitError(BadResponse, Some(raw.status), Some(raw.correlationId), false))
  }

  function TypedResult(fits: PyValue -> bool, r: Result<RawResponse, JibitError>): Result<RawResponse, JibitError> {
    if r.Ok? then ParseModelResponse(fits, r.value) else r
  }

  /** `typed_request` on an audited executor. */
  method TypedRequest(executor: AuditedRequestExecutor, options: RequestOptions, fits: PyValue -> bool)
      returns (r: Result<RawResponse, JibitError>)
    requires executor.Valid()
    modifies executor.executor.engine.host, executor.executor.authenticator.store.Footprint(), executor.sink
    ensures
      var (s', offered, raw) := AuditedSpec(
        executor.executor.authenticator.authority, executor.executor.engine.host.env,
        executor.sink.raises, old(executor.executor.authenticator.State()), old(executor.sink.offered), options);
      (executor.executor.authenticator.State(), executor.sink.offered, r) == (s', offered, TypedResult(fits, raw))
  {
    hide AuditedSpec;
    var raw := executor.Execute(options);
    if raw.Raised? {
      return raw;
    }
    return ParseModelResponse(fits, raw.value);
  }

  /** A typed call: its request and its response model. */
  datatype TypedCall = TypedCall(options: RequestOptions, fits: PyValue -> bool)

  function OptionsOf(calls: seq<TypedCall>): seq<RequestOptions> {
    seq(|calls|, i requires 0 <= i < |calls| => calls[i].options)
  }

  predicate IsMalformed(r: Result<RawResponse, JibitError>) {
    r.Raised? && r.error.kind == BadResponse
  }

  /** Over any run of typed calls, a call that raises a malformed-response error is audited as unknown exactly when the
      executor raised it; when the response model did, the event offered is the one of a success. */
  lemma MalformedAuditIff(a: Authority, env: Env, raises: nat -> bool, s: AuthState, offered: seq<AuditEvent>,
      calls: seq<TypedCall>, i: nat)
    requires i < |calls|
    ensures
      var (s', offered', raw) := AuditedRun(a, env, raises, s, offered, OptionsOf(calls));
      && |raw| == |calls| && |offered'| == |offered| + |calls|
      && (IsMalformed(TypedResult(calls[i].fits, raw[i])) ==>
            var e := offered'[|offered| + i];
            && (e.outcome == UnknownOutcome <==> raw[i].Raised?)
            && (e.outcome == SucceededOutcome <==> raw[i].Ok?))
  {
    OneEventPerCall(a, env, raises, s, offered, OptionsOf(calls));
    hide AuditedRun;
  }

  /** The provider accepts and answers with something that is not JSON. */
  function AcceptedGarbled(): Env {
    Env(i => Response(200, NotJson), i => 0.0, i => "", i => 0.0)
  }

  /** An accepted submission with an unreadable answer: the caller sees a malformed response, the sink a success. */
  lemma GarbledSuccessIsAuditedAsSucceeded(a: Authority, options: RequestOptions, fits: PyValue -> bool)
    requires a.Valid() && a.platform.validEndpoint(options.path)
    ensures
      var (s', offered, raw) := AuditedSpec(a, AcceptedGarbled(), n => false, StoredState(a), [], options);
      && IsMalformed(TypedResult(fits, raw))
      && |offered| == 1 && offered[0].outcome == SucceededOutcome
  {
    hide GetTokenSpec, Save;
    var env, s := AcceptedGarbled(), StoredState(a);
    StoredTokenIsUsed(a, env);
    var authorized := Authorize(options, STORED);
    assert StopFrom(a.config, authorized, env, 0, 1) == 1;
    RunShape(a.platform, a.config, env, Tick(s).w, authorized);
    hide AfterRetries, BuildRequest, StopFrom;
  }

  /** If the typed call raises a malformed-response error, it is audited as unknown. */
  ghost predicate MalformedIsUnknown(a: Authority, env: Env, s: AuthState, options: RequestOptions,
      fits: PyValue -> bool)
  {
    var raw := AuthorizedSpec(a, env, s, options).1;
    IsMalformed(TypedResult(fits, raw)) ==> EventFor(options, raw).outcome == UnknownOutcome
  }

  /** Whatever the provider does and the store holds, every malformed response is audited as unknown exactly for the
      requests that are refused for their endpoint: for no request that can be sent. */
  lemma MalformedIsUnknownIff(a: Authority, options: RequestOptions, fits: PyValue -> bool)
    requires a.Valid()
    ensures (forall env, s :: MalformedIsUnknown(a, env, s, options, fits)) <==> !a.platform.validEndpoint(options.path)
  {
    if a.platform.validEndpoint(options.path) {
      hide AuthorizedSpec;
      GarbledSuccessIsAuditedAsSucceeded(a, options, fits);
      assert !MalformedIsUnknown(a, AcceptedGarbled(), StoredState(a), options, fits);
    } else {
      forall env, s ensures MalformedIsUnknown(a, env, s, options, fits) {
        RefusedForItsEndpoint(a, env, s, options);
      }
      hide AuthorizedSpec;
    }
  }

  lemma RefusedForItsEndpoint(a: Authority, env: Env, s: AuthState, options: RequestOptions)
    requires !a.platform.validEndpoint(options.path)
    ensures AuthorizedSpec(a, env, s, options).1.Raised?
  {
    hide GetTokenSpec, ReplaySpec;
  }
}

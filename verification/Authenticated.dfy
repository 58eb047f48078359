/** src/jibit/auth/authenticated.py */
module Authenticated {
  import opened PyValues
  import opened Retry
  import opened Config
  import opened Engine
  import opened Tokens
  import opened Stores
  import opened Provider
  import opened TokenLifecycle

  function Authorization(t: TokenState): string {
    t.tokenType + " " + t.access
  }

  function Authorize(options: RequestOptions, t: TokenState): RequestOptions {
    options.(headers := options.headers["Authorization" := Authorization(t)])
  }

  predicate CanReplay(options: RequestOptions) {
    if options.safety in {ReadOnly, Idempotent} then true
    else options.safety == IdempotencyProtected && options.idempotencyKey.Some?
  }

  predicate AuthenticationFailed(r: Result<RawResponse, JibitError>) {
    r.Raised? && r.error.kind == Authentication
  }

  /** Sending the request under one token. */
  function SendUnder(a: Authority, env: Env, s: AuthState, options: RequestOptions,
      t: TokenState): (AuthState, Result<RawResponse, JibitError>) {
    var (w, r) := ExecuteSpec(a.platform, a.config, env, s.w, Authorize(options, t));
    (s.(w := w), r)
  }

  function ReplaySpec(a: Authority, env: Env, s: AuthState, options: RequestOptions,
      rejected: TokenState): (AuthState, Result<RawResponse, JibitError>) {
    var (s1, recovered) := RecoverSpec(a, env, s, rejected.access);
    match recovered
    case Raised(e) => (s1, Raised(e))
    case Ok(replacement) =>
      var (s2, r) := SendUnder(a, env, s1, options, replacement);
      if AuthenticationFailed(r) then (InvalidateSpec(s2), r) else (s2, r)
  }

  function AuthorizedSpec(a: Authority, env: Env, s: AuthState,
      options: RequestOptions): (AuthState, Result<RawResponse, JibitError>) {
    var (s1, got) := GetTokenSpec(a, env, s);
    match got
    case Raised(e) => (s1, Raised(e))
    case Ok(token) =>
      var (s2, r) := SendUnder(a, env, s1, options, token);
      if !AuthenticationFailed(r) then (s2, r)
      else if !CanReplay(options) then (InvalidateSpec(s2), r)
      else ReplaySpec(a, env, s2, options, token)
  }

  class AuthenticatedRequestEngine {
    const engine: RequestEngine
    const authenticator: ServiceAuthenticator

    constructor (engine: RequestEngine, authenticator: ServiceAuthenticator)
      ensures this.engine == engine && this.authenticator == authenticator
    {
      this.engine, this.authenticator := engine, authenticator;
    }

    ghost predicate Valid() {
      authenticator.Valid() && engine == authenticator.engine
    }

    method Execute(options: RequestOptions) returns (r: Result<RawResponse, JibitError>)
      requires Valid()
      modifies engine.host, authenticator.store.Footprint()
      ensures (authenticator.State(), r)
          == AuthorizedSpec(authenticator.authority, engine.host.env, old(authenticator.State()), options)
      ensures authenticator.OthersKept()
    {
      hide GetTokenSpec, RecoverSpec, ExecuteSpec, Load;
      var got := authenticator.GetToken();
      if got.Raised? {
        return Raised(got.error);
      }
      var token := got.value;
      r := engine.Execute(Authorize(options, token));
      if !AuthenticationFailed(r) {
        return;
      }
      if !CanReplay(options) {
        authenticator.Invalidate();
        return;
      }
      var recovered := authenticator.RecoverFromUnauthorized(token.access);
      if recovered.Raised? {
        return Raised(recovered.error);
      }
      r := engine.Execute(Authorize(options, recovered.value));
      if AuthenticationFailed(r) {
        authenticator.Invalidate();
      }
    }
  }

  // ----- The three encodings of "may be sent again" -----

  /** The retry policy, the 401 replay and the retryable flag of an error agree on which operations may be repeated. */
  lemma SafetyEncodingsAgree(config: JibitConfig, options: RequestOptions, cid: string, status: int, attempt: int,
      draw: real)
    requires 1 <= attempt < config.retry.maxAttempts && status in TRANSIENT_STATUS_CODES
    ensures CanReplay(options) <==> Repeatable(options.safety, options.HasKey())
    ensures Decide(config.retry, attempt, options.safety, HttpEnding(status), options.HasKey(), draw).shouldRetry
      <==> CanReplay(options)
    ensures MapError(options, cid, status).retryable <==> CanReplay(options)
  {
    DecideExactly(config.retry, attempt, options.safety, HttpEnding(status), options.HasKey(), draw);
  }

  // ----- How often and what is submitted -----

  function CountAuthorized(requests: seq<TransportRequest>): nat {
    if requests == [] then 0
    else CountAuthorized(requests[..|requests| - 1]) + (if IsAuthorized(requests[|requests| - 1]) then 1 else 0)
  }

  function NewRequests(w: World, w': World): seq<TransportRequest>
    requires w.sent <= w'.sent
  {
    w'.sent[|w.sent|..]
  }

  /** A request without the two headers that differ between one submission and its replay. */
  function Submission(request: TransportRequest): TransportRequest {
    request.(headers := request.headers - VARYING)
  }

  /** What the caller asked to have submitted. */
  function Requested(a: Authority, options: RequestOptions): TransportRequest {
    Submission(BuildRequest(a.platform, a.config, options, ""))
  }

  /** From `w` to `w'`: at most `n` requests, at most `m` of them authorized, each of those submitting `requested`. */
  ghost predicate Traffic(w: World, w': World, n: int, m: int, requested: TransportRequest) {
    && w.sent <= w'.sent
    && |w'.sent| <= |w.sent| + n
    && CountAuthorized(NewRequests(w, w')) <= m
    && (forall i :: |w.sent| <= i < |w'.sent| && IsAuthorized(w'.sent[i]) ==> Submission(w'.sent[i]) == requested)
  }

  lemma {:induction false} CountOfAppend(xs: seq<TransportRequest>, ys: seq<TransportRequest>)
    ensures CountAuthorized(xs + ys) == CountAuthorized(xs) + CountAuthorized(ys)
  {
    if ys == [] {
      assert xs + ys == xs;
    } else {
      var n := |ys| - 1;
      CountOfAppend(xs, ys[..n]);
      assert (xs + ys)[..|xs + ys| - 1] == xs + ys[..n];
    }
  }

  lemma CountOfOne(q: TransportRequest)
    ensures CountAuthorized([]) == 0
    ensures CountAuthorized([q]) == if "Authorization" in q.headers then 1 else 0
  {
    assert [q][..0] == [];
  }

  lemma {:induction false} CountBounds(requests: seq<TransportRequest>)
    ensures CountAuthorized(requests) <= |requests|
    ensures (forall r <- requests :: !IsAuthorized(r)) ==> CountAuthorized(requests) == 0
  {
    if requests != [] {
      CountBounds(requests[..|requests| - 1]);
    }
  }

  lemma TrafficComposes(w: World, w1: World, w2: World, n: int, m: int, n': int, m': int, requested: TransportRequest)
    requires Traffic(w, w1, n, m, requested) && Traffic(w1, w2, n', m', requested)
    ensures Traffic(w, w2, n + n', m + m', requested)
  {
    assert w1.sent == w2.sent[..|w1.sent|];
    assert NewRequests(w, w2) == NewRequests(w, w1) + NewRequests(w1, w2);
    CountOfAppend(NewRequests(w, w1), NewRequests(w1, w2));
  }

  lemma TokenTrafficIsTraffic(w: World, w': World, n: int, requested: TransportRequest)
    requires TokenTraffic(w, w', n)
    ensures Traffic(w, w', n, 0, requested)
  {
    forall r | r in NewRequests(w, w') ensures !IsAuthorized(r) {
      var i :| 0 <= i < |NewRequests(w, w')| && NewRequests(w, w')[i] == r;
      assert r == w'.sent[|w.sent| + i];
    }
    CountBounds(NewRequests(w, w'));
  }

  lemma SubmissionIsRequested(a: Authority, options: RequestOptions, t: TokenState, cid: string)
    ensures Submission(BuildRequest(a.platform, a.config, Authorize(options, t), cid)) == Requested(a, options)
  {
    hide BuildUrl, SetDefault;
    HeadersAreRequested(options, Authorization(t), cid);
  }

  const VARYING: set<string> := {"Authorization", "X-Correlation-ID"}

  lemma DefaultOutsideVarying(headers: map<string, string>, key: string, value: string)
    ensures SetDefault(headers, key, value) - VARYING
      == if key in VARYING then headers - VARYING else SetDefault(headers - VARYING, key, value)
  {
  }

  /** Apart from the varying two, the headers do not depend on the token or the correlation identifier. */
  lemma HeadersAreRequested(options: RequestOptions, authorization: string, cid: string)
    ensures BuildHeaders(options.(headers := options.headers["Authorization" := authorization]), cid) - VARYING
         == BuildHeaders(options, "") - VARYING
  {
    var given, plain := options.headers["Authorization" := authorization], options.headers;
    assert given - VARYING == plain - VARYING;
    DefaultOutsideVarying(given, "Accept", "application/json");
    DefaultOutsideVarying(plain, "Accept", "application/json");
    var accepted := SetDefault(given, "Accept", "application/json");
    var accepted' := SetDefault(plain, "Accept", "application/json");
    DefaultOutsideVarying(accepted, "X-Correlation-ID", cid);
    DefaultOutsideVarying(accepted', "X-Correlation-ID", "");
    if options.idempotencyKey.Some? {
      var key := options.idempotencyKey.value;
      DefaultOutsideVarying(SetDefault(accepted, "X-Correlation-ID", cid), "Idempotency-Key", key);
      DefaultOutsideVarying(SetDefault(accepted', "X-Correlation-ID", ""), "Idempotency-Key", key);
    }
    hide SetDefault;
  }

  /** Sending under one token submits what the caller asked, once if it must not be repeated. */
  lemma SendUnderTraffic(a: Authority, env: Env, s: AuthState, options: RequestOptions, t: TokenState)
    requires a.config.Valid()
    ensures
      var most := if Repeatable(options.safety, options.HasKey()) then a.config.retry.maxAttempts else 1;
      Traffic(s.w, SendUnder(a, env, s, options, t).0.w, most, most, Requested(a, options))
  {
    var authorized := Authorize(options, t);
    var w' := ExecuteSpec(a.platform, a.config, env, s.w, authorized).0;
    if a.platform.validEndpoint(options.path) {
      RunShape(a.platform, a.config, env, s.w, authorized);
      var cid := ChooseCorrelationId(env, s.w, authorized).0;
      SubmissionIsRequested(a, options, t, cid);
      if !Repeatable(options.safety, options.HasKey()) {
        UnrepeatableSentOnce(a.platform, a.config, env, s.w, authorized);
      }
    }
    hide ExecuteSpec, AfterRetries, BuildRequest;
    CountBounds(NewRequests(s.w, w'));
  }

  /** Whatever the transport does: an operation that must not be repeated is submitted at most once, any other at
      most twice the attempt limit, and with the token requests at most six times the limit is sent in all. */
  lemma SubmissionsBounded(a: Authority, env: Env, s: AuthState, options: RequestOptions)
    requires a.config.Valid()
    ensures
      var w' := AuthorizedSpec(a, env, s, options).0.w;
      var limit := a.config.retry.maxAttempts;
      var most := if Repeatable(options.safety, options.HasKey()) then 2 * limit else 1;
      Traffic(s.w, w', 6 * limit, most, Requested(a, options))
  {
    hide GetTokenSpec, RecoverSpec, SendUnder, Traffic;
    var limit := a.config.retry.maxAttempts;
    var requested := Requested(a, options);
    var most := if Repeatable(options.safety, options.HasKey()) then limit else 1;
    var (s1, got) := GetTokenSpec(a, env, s);
    GetTokenTraffic(a, env, s);
    TokenTrafficIsTraffic(s.w, s1.w, 2 * limit, requested);
    if got.Raised? {
      TrafficGrows(s.w, s1.w, 2 * limit, 0, 6 * limit, 2 * most, requested);
      TrafficGrows(s.w, s1.w, 2 * limit, 0, 6 * limit, 1, requested);
      return;
    }
    var (s2, r) := SendUnder(a, env, s1, options, got.value);
    SendUnderTraffic(a, env, s1, options, got.value);
    TrafficComposes(s.w, s1.w, s2.w, 2 * limit, 0, most, most, requested);
    if !AuthenticationFailed(r) || !CanReplay(options) {
      var twice := if Repeatable(options.safety, options.HasKey()) then 2 * limit else 1;
      TrafficGrows(s.w, s2.w, 2 * limit + most, most, 6 * limit, twice, requested);
      return;
    }
    var (s3, recovered) := RecoverSpec(a, env, s2, got.value.access);
    RecoverTraffic(a, env, s2, got.value.access);
    TokenTrafficIsTraffic(s2.w, s3.w, 2 * limit, requested);
    TrafficComposes(s.w, s2.w, s3.w, 3 * limit, limit, 2 * limit, 0, requested);
    if recovered.Raised? {
      TrafficGrows(s.w, s3.w, 5 * limit, limit, 6 * limit, 2 * limit, requested);
    } else {
      var (s4, _) := SendUnder(a, env, s3, options, recovered.value);
      SendUnderTraffic(a, env, s3, options, recovered.value);
      TrafficComposes(s.w, s3.w, s4.w, 5 * limit, limit, limit, limit, requested);
    }
  }

  lemma TrafficGrows(w: World, w': World, n: int, m: int, n': int, m': int, requested: TransportRequest)
    requires Traffic(w, w', n, m, requested) && n <= n' && m <= m'
    ensures Traffic(w, w', n', m', requested)
  {
  }

  // ----- How long one call sleeps -----

  /** What one run of requests sleeps at most. */
  function SleepLimit(config: RetryConfig): real
    requires config.Valid()
  {
    MinReal(FlatBound(config, config.maxAttempts - 1), GeometricBound(config, config.maxAttempts - 1))
  }

  /** From `w` to `w'` at most `n` such runs were slept through. */
  ghost predicate SleptAtMost(config: RetryConfig, w: World, w': World, n: nat)
    requires config.Valid()
  {
    w.slept <= w'.slept && 0.0 <= Sum(w'.slept[|w.slept|..]) <= n as real * SleepLimit(config)
  }

  lemma {:induction false} SumOfAppend(xs: seq<real>, ys: seq<real>)
    ensures Sum(xs + ys) == Sum(xs) + Sum(ys)
  {
    if ys == [] {
      assert xs + ys == xs;
    } else {
      var n := |ys| - 1;
      SumOfAppend(xs, ys[..n]);
      assert (xs + ys)[..|xs + ys| - 1] == xs + ys[..n];
    }
  }

  lemma SleepLimitIsNatural(config: RetryConfig)
    requires config.Valid()
    ensures SleepLimit(config) >= 0.0
  {
    BoundsGrow(config, 0, config.maxAttempts - 1);
    assert FlatBound(config, 0) == 0.0 && GeometricBound(config, 0) == 0.0;
  }

  lemma Distributed(n: nat, m: nat, x: real)
    ensures (n + m) as real * x == n as real * x + m as real * x
  {
    assert (n + m) as real == n as real + m as real;
  }

  lemma SleepsCompose(config: RetryConfig, w: World, w1: World, w2: World, n: nat, m: nat)
    requires config.Valid() && SleptAtMost(config, w, w1, n) && SleptAtMost(config, w1, w2, m)
    ensures SleptAtMost(config, w, w2, n + m)
  {
    hide Sum, SleepLimit, RetryConfig.Valid;
    NewSleeps(w.slept, w1.slept, w2.slept);
    SumOfAppend(w1.slept[|w.slept|..], w2.slept[|w1.slept|..]);
    Distributed(n, m, SleepLimit(config));
  }

  lemma NewSleeps(x: seq<real>, y: seq<real>, z: seq<real>)
    requires x <= y <= z
    ensures x <= z && z[|x|..] == y[|x|..] + z[|y|..]
  {
    assert y == z[..|y|];
  }

  lemma SleepsGrow(config: RetryConfig, w: World, w': World, n: nat, m: nat)
    requires config.Valid() && SleptAtMost(config, w, w', n) && n <= m
    ensures SleptAtMost(config, w, w', m)
  {
    SleepLimitIsNatural(config);
    Distributed(n, m - n, SleepLimit(config));
    MulMonotone(0.0, (m - n) as real, SleepLimit(config));
  }

  lemma RunSleeps(a: Authority, env: Env, w: World, options: RequestOptions)
    requires a.config.Valid() && UnitDraws(env.draws)
    ensures SleptAtMost(a.config.retry, w, ExecuteSpec(a.platform, a.config, env, w, options).0, 1)
  {
    TotalSleepBounded(a.platform, a.config, env, w, options);
    hide ExecuteSpec, FlatBound, GeometricBound, Sum;
  }

  lemma NoSleep(config: RetryConfig, w: World, w': World)
    requires config.Valid() && w'.slept == w.slept
    ensures SleptAtMost(config, w, w', 1)
  {
    SleepLimitIsNatural(config);
    assert w'.slept[|w.slept|..] == [];
  }

  lemma RequestSleeps(a: Authority, env: Env, w: World, refresh: Option<TokenState>)
    requires a.config.Valid() && UnitDraws(env.draws)
    ensures SleptAtMost(a.config.retry, w, RequestTokenSpec(a, env, w, refresh).0, 1)
  {
    hide ExecuteSpec, ParseToken, SleepLimit;
    NoSleep(a.config.retry, w, w);
    forall options: RequestOptions
      ensures SleptAtMost(a.config.retry, w, ExecuteSpec(a.platform, a.config, env, w, options).0, 1)
    {
      RunSleeps(a, env, w, options);
    }
  }

  lemma RefreshOrAcquireSleeps(a: Authority, env: Env, s: AuthState, cached: Option<TokenState>, now: real)
    requires a.config.Valid() && UnitDraws(env.draws)
    ensures SleptAtMost(a.config.retry, s.w, RefreshOrAcquireSpec(a, env, s, cached, now).0.w, 2)
  {
    hide RequestTokenSpec, SleepLimit, Sum;
    var w1 := RequestTokenSpec(a, env, s.w, cached).0;
    var w2 := LogEvent(w1, TokenRefreshFailed);
    RequestSleeps(a, env, s.w, cached);
    RequestSleeps(a, env, s.w, None);
    RequestSleeps(a, env, w2, None);
    SleepsGrow(a.config.retry, s.w, w1, 1, 2);
    SleepsGrow(a.config.retry, s.w, RequestTokenSpec(a, env, s.w, None).0, 1, 2);
    SleepsCompose(a.config.retry, s.w, w2, RequestTokenSpec(a, env, w2, None).0, 1, 1);
  }

  lemma GetTokenSleeps(a: Authority, env: Env, s: AuthState)
    requires a.config.Valid() && UnitDraws(env.draws)
    ensures SleptAtMost(a.config.retry, s.w, GetTokenSpec(a, env, s).0.w, 2)
  {
    hide RefreshOrAcquireSpec, Load, SleepLimit, Sum;
    NoSleep(a.config.retry, s.w, s.w);
    SleepsGrow(a.config.retry, s.w, s.w, 1, 2);
    forall s1: AuthState, cached, now
      ensures SleptAtMost(a.config.retry, s1.w, RefreshOrAcquireSpec(a, env, s1, cached, now).0.w, 2)
    {
      RefreshOrAcquireSleeps(a, env, s1, cached, now);
    }
  }

  lemma RecoverSleeps(a: Authority, env: Env, s: AuthState, rejected: string)
    requires a.config.Valid() && UnitDraws(env.draws)
    ensures SleptAtMost(a.config.retry, s.w, RecoverSpec(a, env, s, rejected).0.w, 2)
  {
    hide RefreshOrAcquireSpec, Load, SleepLimit, Sum;
    NoSleep(a.config.retry, s.w, s.w);
    SleepsGrow(a.config.retry, s.w, s.w, 1, 2);
    forall s1: AuthState, cached, now
      ensures SleptAtMost(a.config.retry, s1.w, RefreshOrAcquireSpec(a, env, s1, cached, now).0.w, 2)
    {
      RefreshOrAcquireSleeps(a, env, s1, cached, now);
    }
  }

  /** One authorised call, with its token requests, recovery and replay, sleeps at most six times as long as one run
      may. */
  lemma AuthorizedSleepBounded(a: Authority, env: Env, s: AuthState, options: RequestOptions)
    requires a.config.Valid() && UnitDraws(env.draws)
    ensures SleptAtMost(a.config.retry, s.w, AuthorizedSpec(a, env, s, options).0.w, 6)
  {
    hide GetTokenSpec, RecoverSpec, ExecuteSpec, SleptAtMost;
    var config := a.config.retry;
    var (s1, got) := GetTokenSpec(a, env, s);
    GetTokenSleeps(a, env, s);
    SleepsGrow(config, s.w, s1.w, 2, 6);
    if got.Ok? {
      var (s2, r) := SendUnder(a, env, s1, options, got.value);
      RunSleeps(a, env, s1.w, Authorize(options, got.value));
      SleepsCompose(config, s.w, s1.w, s2.w, 2, 1);
      SleepsGrow(config, s.w, s2.w, 3, 6);
      var (s3, recovered) := RecoverSpec(a, env, s2, got.value.access);
      RecoverSleeps(a, env, s2, got.value.access);
      SleepsCompose(config, s.w, s2.w, s3.w, 3, 2);
      SleepsGrow(config, s.w, s3.w, 5, 6);
      if recovered.Ok? {
        var (s4, _) := SendUnder(a, env, s3, options, recovered.value);
        RunSleeps(a, env, s3.w, Authorize(options, recovered.value));
        SleepsCompose(config, s.w, s3.w, s4.w, 5, 1);
      }
    }
  }

  // ----- What the store holds afterwards -----

  predicate EntryIs(a: Authority, s: AuthState, t: TokenState) {
    Load(a.platform, a.kind, s.raw) == Loaded(t)
  }

  /** A successful call leaves exactly the token of its last request's Authorization header in the store. */
  lemma SuccessKeepsUsedToken(a: Authority, env: Env, s: AuthState, options: RequestOptions)
    requires a.Valid()
    ensures
      var (s', r) := AuthorizedSpec(a, env, s, options);
      r.Ok? ==>
        && |s'.w.sent| > |s.w.sent|
        && exists t :: EntryIs(a, s', t)
             && "Authorization" in s'.w.sent[|s'.w.sent| - 1].headers
             && s'.w.sent[|s'.w.sent| - 1].headers["Authorization"] == t.tokenType + " " + t.access
  {
    hide GetTokenSpec, RecoverSpec, SendUnder, Load;
    var (s1, got) := GetTokenSpec(a, env, s);
    GetTokenEntry(a, env, s);
    GetTokenTraffic(a, env, s);
    if got.Ok? {
      var (s2, r) := SendUnder(a, env, s1, options, got.value);
      SendUnderEnds(a, env, s1, options, got.value);
      if AuthenticationFailed(r) && CanReplay(options) {
        var (s3, recovered) := RecoverSpec(a, env, s2, got.value.access);
        RecoverEntry(a, env, s2, got.value.access);
        RecoverTraffic(a, env, s2, got.value.access);
        if recovered.Ok? {
          SendUnderEnds(a, env, s3, options, recovered.value);
        }
      }
    }
  }

  /** Sending does not touch the store, and a success ends with a request that carries the token. */
  lemma SendUnderEnds(a: Authority, env: Env, s: AuthState, options: RequestOptions, t: TokenState)
    requires a.config.Valid()
    ensures
      var (s', r) := SendUnder(a, env, s, options, t);
      && s'.raw == s.raw
      && |s'.w.sent| >= |s.w.sent|
      && (r.Ok? ==>
            && |s'.w.sent| > |s.w.sent|
            && "Authorization" in s'.w.sent[|s'.w.sent| - 1].headers
            && s'.w.sent[|s'.w.sent| - 1].headers["Authorization"] == Authorization(t))
  {
    var authorized := Authorize(options, t);
    if a.platform.validEndpoint(options.path) {
      RunShape(a.platform, a.config, env, s.w, authorized);
      var cid := ChooseCorrelationId(env, s.w, authorized).0;
      assert BuildRequest(a.platform, a.config, authorized, cid).headers["Authorization"] == Authorization(t);
    }
  }

  /** The entry after a call that obtained a token, case by case. A rejection of an operation that may not be replayed,
      and a rejected replay, empty the store; a recovery that raises leaves the rejected token in it. */
  lemma EntryAfterCall(a: Authority, env: Env, s: AuthState, options: RequestOptions)
    requires a.platform.Valid() && GetTokenSpec(a, env, s).1.Ok?
    ensures
      var (s1, got) := GetTokenSpec(a, env, s);
      var (s2, first) := SendUnder(a, env, s1, options, got.value);
      var (s3, recovered) := RecoverSpec(a, env, s2, got.value.access);
      var (s', r) := AuthorizedSpec(a, env, s, options);
      && (!AuthenticationFailed(first) ==> EntryIs(a, s', got.value))
      && (AuthenticationFailed(first) && !Repeatable(options.safety, options.HasKey()) ==> s'.raw == Empty)
      && (AuthenticationFailed(first) && Repeatable(options.safety, options.HasKey()) ==>
            if recovered.Raised? then r == Raised(recovered.error) && EntryIs(a, s', got.value)
            else if AuthenticationFailed(r) then s'.raw == Empty
            else EntryIs(a, s', recovered.value))
  {
    hide GetTokenSpec, RecoverSpec, ExecuteSpec, Load;
    var (s1, got) := GetTokenSpec(a, env, s);
    GetTokenEntry(a, env, s);
    var (s2, first) := SendUnder(a, env, s1, options, got.value);
    RecoverEntry(a, env, s2, got.value.access);
    assert SafeGetSpec(a, s2).0 == s2;
    var (s3, recovered) := RecoverSpec(a, env, s2, got.value.access);
    if AuthenticationFailed(first) && CanReplay(options) && recovered.Ok? {
      var (s4, second) := SendUnder(a, env, s3, options, recovered.value);
      var (s', r) := AuthorizedSpec(a, env, s, options);
      assert r == second;
    }
  }

  // ----- Sessions over any kind of store -----

  datatype Call = GetTokenCall | RecoverCall(rejected: string) | InvalidateCall | ExecuteCall(options: RequestOptions)

  datatype Reply =
    | TokenReply(token: Result<TokenState, JibitError>)
    | Done
    | ResponseReply(response: Result<RawResponse, JibitError>)

  function CallSpec(a: Authority, env: Env, s: AuthState, call: Call): (AuthState, Reply) {
    match call
    case GetTokenCall => var (s', r) := GetTokenSpec(a, env, s); (s', TokenReply(r))
    case RecoverCall(rejected) => var (s', r) := RecoverSpec(a, env, s, rejected); (s', TokenReply(r))
    case InvalidateCall => (InvalidateSpec(s), Done)
    case ExecuteCall(options) => var (s', r) := AuthorizedSpec(a, env, s, options); (s', ResponseReply(r))
  }

  function SessionSpec(a: Authority, env: Env, s: AuthState, calls: seq<Call>): (AuthState, seq<Reply>)
    decreases |calls|
  {
    if calls == [] then (s, [])
    else
      var (s', reply) := CallSpec(a, env, s, calls[0]);
      var (s'', replies) := SessionSpec(a, env, s', calls[1..]);
      (s'', [reply] + replies)
  }

  lemma SendUnderRefines(a: Authority, env: Env, s: AuthState, kind: StoreKind, t: AuthState, options: RequestOptions,
      token: TokenState)
    requires SameView(a, s, kind, t)
    ensures
      var (s', r) := SendUnder(a, env, s, options, token);
      var (t', r') := SendUnder(a.(kind := kind), env, t, options, token);
      r == r' && SameView(a, s', kind, t')
  {
    hide ExecuteSpec, Load;
  }

  lemma InvalidateRefines(a: Authority, s: AuthState, kind: StoreKind, t: AuthState)
    requires SameView(a, s, kind, t)
    ensures SameView(a, InvalidateSpec(s), kind, InvalidateSpec(t))
  {
  }

  lemma AuthorizedRefines(a: Authority, env: Env, s: AuthState, kind: StoreKind, t: AuthState, options: RequestOptions)
    requires a.platform.Valid() && SameView(a, s, kind, t)
    ensures
      var (s', r) := AuthorizedSpec(a, env, s, options);
      var (t', r') := AuthorizedSpec(a.(kind := kind), env, t, options);
      r == r' && SameView(a, s', kind, t')
  {
    hide GetTokenSpec, RecoverSpec, SendUnder, SameView, InvalidateSpec;
    var b := a.(kind := kind);
    GetTokenRefines(a, env, s, kind, t);
    var (s1, got) := GetTokenSpec(a, env, s);
    var (t1, _) := GetTokenSpec(b, env, t);
    if got.Ok? {
      SendUnderRefines(a, env, s1, kind, t1, options, got.value);
      var (s2, _) := SendUnder(a, env, s1, options, got.value);
      var (t2, _) := SendUnder(b, env, t1, options, got.value);
      InvalidateRefines(a, s2, kind, t2);
      RecoverRefines(a, env, s2, kind, t2, got.value.access);
      var (s3, recovered) := RecoverSpec(a, env, s2, got.value.access);
      var (t3, _) := RecoverSpec(b, env, t2, got.value.access);
      if recovered.Ok? {
        SendUnderRefines(a, env, s3, kind, t3, options, recovered.value);
        var (s4, _) := SendUnder(a, env, s3, options, recovered.value);
        var (t4, _) := SendUnder(b, env, t3, options, recovered.value);
        InvalidateRefines(a, s4, kind, t4);
      }
    }
  }

  /** Over any session of calls, two authenticators that differ only in the kind of their store and start from the
      same readable entry give the same replies and leave the same world: same requests, sleeps, events and clock
      readings. */
  lemma {:induction false} SessionRefines(a: Authority, env: Env, s: AuthState, kind: StoreKind, t: AuthState,
      calls: seq<Call>)
    requires a.platform.Valid() && SameView(a, s, kind, t)
    ensures
      var (s', replies) := SessionSpec(a, env, s, calls);
      var (t', replies') := SessionSpec(a.(kind := kind), env, t, calls);
      replies == replies' && s'.w == t'.w && SameView(a, s', kind, t')
    decreases |calls|
  {
    if calls != [] {
      var b := a.(kind := kind);
      match calls[0] {
        case GetTokenCall => GetTokenRefines(a, env, s, kind, t);
        case RecoverCall(rejected) => RecoverRefines(a, env, s, kind, t, rejected);
        case InvalidateCall => InvalidateRefines(a, s, kind, t);
        case ExecuteCall(options) => AuthorizedRefines(a, env, s, kind, t, options);
      }
      hide GetTokenSpec, RecoverSpec, AuthorizedSpec, InvalidateSpec, Load;
      SessionRefines(a, env, CallSpec(a, env, s, calls[0]).0, kind, CallSpec(b, env, t, calls[0]).0, calls[1..]);
    }
  }
}

/** The rules of src/jibit/auth/provider.py in terms of times, texts and requests on the wire: when a cached token
    is used, when a refresh is tried and when it gives way to the credentials, what is sent, and what a response
    becomes. */
module TokenRules {
  import opened PyValues
  import opened Retry
  import opened Config
  import opened Engine
  import opened Runs
  import opened Tokens
  import opened Stores
  import opened Provider
  import opened TokenLifecycle

  // ----- When a cached token is used -----

  /** The expiry, if there is one, lies more than the leeway, in seconds, after the reading. */
  predicate OutsideLeeway(expiresAt: Option<real>, reading: real, leeway: int) {
    expiresAt.None? || expiresAt.value > reading + leeway as real
  }

  /** A request that yields a token was sent. */
  lemma ObtainingSends(a: Authority, env: Env, w: World, refresh: Option<TokenState>)
    ensures
      var (w', r) := RequestTokenSpec(a, env, w, refresh);
      w.sent <= w'.sent && (r.Ok? ==> |w'.sent| > |w.sent|)
  {
    hide ParseToken, BuildRequest, Attempts, LastOutcome, LastEvent;
  }

  lemma RefreshOrAcquireSends(a: Authority, env: Env, s: AuthState, cached: Option<TokenState>, now: real)
    ensures
      var (s', r) := RefreshOrAcquireSpec(a, env, s, cached, now);
      s.w.sent <= s'.w.sent && (r.Ok? ==> |s'.w.sent| > |s.w.sent|)
  {
    hide RequestTokenSpec, Load, Save;
    ObtainingSends(a, env, s.w, cached);
    ObtainingSends(a, env, s.w, None);
    ObtainingSends(a, env, LogEvent(RequestTokenSpec(a, env, s.w, cached).0, TokenRefreshFailed), None);
  }

  /** A call returns a token without sending anything exactly when the store holds one that is outside the leeway at
      the first reading of the clock or at the second; it is that token, and nothing else changes. */
  lemma CachedTokenIsReturnedIff(a: Authority, env: Env, s: AuthState)
    ensures
      var (s', r) := GetTokenSpec(a, env, s);
      var loaded := Load(a.platform, a.kind, s.raw);
      var leeway := a.config.auth.expiryLeeway;
      var n := s.w.clockReads;
      && ((r.Ok? && s'.w.sent == s.w.sent) <==>
            && loaded.Loaded?
            && (OutsideLeeway(loaded.token.expiresAt, env.clock(n), leeway)
                || OutsideLeeway(loaded.token.expiresAt, env.clock(n + 1), leeway)))
      && (r.Ok? && s'.w.sent == s.w.sent ==>
            r.value == loaded.token && s'.raw == s.raw && s'.w.events == s.w.events && s'.w.slept == s.w.slept)
  {
    hide RefreshOrAcquireSpec, Load;
    EmptyIsMissing(a);
    var (s1, _) := SafeGetSpec(a, Tick(s));
    var (s2, cached) := SafeGetSpec(a, Tick(s1));
    RefreshOrAcquireSends(a, env, s2, cached, env.clock(s1.w.clockReads));
  }

  /** The same for a recovery, which reads the clock once and never returns the rejected token. */
  lemma CachedTokenIsReusedIff(a: Authority, env: Env, s: AuthState, rejected: string)
    ensures
      var (s', r) := RecoverSpec(a, env, s, rejected);
      var loaded := Load(a.platform, a.kind, s.raw);
      && ((r.Ok? && s'.w.sent == s.w.sent) <==>
            && loaded.Loaded? && loaded.token.access != rejected
            && OutsideLeeway(loaded.token.expiresAt, env.clock(s.w.clockReads), a.config.auth.expiryLeeway))
      && (r.Ok? && s'.w.sent == s.w.sent ==>
            r.value == loaded.token && s'.raw == s.raw && s'.w.events == s.w.events && s'.w.slept == s.w.slept)
  {
    hide RefreshOrAcquireSpec, Load;
    EmptyIsMissing(a);
    var (s1, cached) := SafeGetSpec(a, s);
    RefreshOrAcquireSends(a, env, Tick(s1), cached, env.clock(s1.w.clockReads));
  }

  // ----- What a token request sends -----

  /** One of the token requests: a POST of a JSON dictionary to the path, without authorisation. */
  ghost predicate TokenRequest(a: Authority, path: string, fields: map<string, PyValue>, q: TransportRequest) {
    && q.httpMethod == a.platform.upper("POST")
    && UrlIs(a.config, a.spec.service, path, q.url)
    && q.body == RequestBody(PyNone, PyDict(fields), PyNone, PyNone)
    && q.headers.Keys == {"Accept", "X-Correlation-ID"}
    && q.headers["Accept"] == "application/json"
  }

  /** The refresh token under the documented name, with the access token where a name for it is documented. */
  ghost predicate RefreshFields(spec: AuthSpec, refresh: string, access: string, fields: map<string, PyValue>) {
    && (forall key :: key in fields <==> key == spec.refreshTokenField || Some(key) == spec.refreshAccessField)
    && (Some(spec.refreshTokenField) != spec.refreshAccessField ==> fields[spec.refreshTokenField] == PyStr(refresh))
    && (spec.refreshAccessField.Some? ==> fields[spec.refreshAccessField.value] == PyStr(access))
  }

  /** The keys of the service under the documented names, and its scopes where a name is documented and there are
      some. */
  ghost predicate GenerationFields(spec: AuthSpec, config: ServiceConfig, fields: map<string, PyValue>) {
    var scoped := spec.scopesField.Some? && config.scopes != [];
    && (forall key :: key in fields <==>
          key == spec.apiKeyField || key == spec.secretKeyField || (scoped && Some(key) == spec.scopesField))
    && (spec.apiKeyField != spec.secretKeyField && (scoped ==> Some(spec.apiKeyField) != spec.scopesField) ==>
          config.credentials.apiKey.Some? && fields[spec.apiKeyField] == PyStr(config.credentials.apiKey.value))
    && ((scoped ==> Some(spec.secretKeyField) != spec.scopesField) ==>
          config.credentials.secretKey.Some? && fields[spec.secretKeyField]
              == PyStr(config.credentials.secretKey.value))
    && (scoped ==>
          fields[spec.scopesField.value].PyList? && TextsOf(fields[spec.scopesField.value].items, config.scopes))
  }

  predicate TextsOf(items: seq<PyValue>, texts: seq<string>) {
    |items| == |texts| && forall i :: 0 <= i < |texts| ==> items[i] == PyStr(texts[i])
  }

  /** A generation: the keys to the generation path. */
  ghost predicate IsGeneration(a: Authority, q: TransportRequest) {
    exists fields ::
      GenerationFields(a.spec, a.serviceConfig, fields) && TokenRequest(a, a.spec.generatePath, fields, q)
  }

  /** A refresh: the token's refresh token, which is not empty, to the refresh path. */
  ghost predicate IsRefresh(a: Authority, t: TokenState, q: TransportRequest) {
    exists fields, text ::
      && t.refresh == Some(text) && text != ""
      && RefreshFields(a.spec, text, t.access, fields) && TokenRequest(a, a.spec.refreshPath, fields, q)
  }

  lemma SentTokenRequest(a: Authority, env: Env, w: World, options: RequestOptions, previous: Option<TokenState>,
      path: string, fields: map<string, PyValue>)
    requires a.config.Valid() && options.service == a.spec.service && options.path == path
    requires options.httpMethod == "POST" && options.headers == map[] && options.idempotencyKey.None?
    requires options.body == RequestBody(PyNone, PyDict(fields), PyNone, PyNone)
    ensures
      var w' := SendTokenRequest(a, env, w, options, previous).0;
      && w.sent <= w'.sent
      && (a.platform.validEndpoint(path) <==> |w'.sent| > |w.sent|)
      && forall i :: |w.sent| <= i < |w'.sent| ==> TokenRequest(a, path, fields, w'.sent[i])
  {
    RequestsOnTheWire(a.platform, a.config, env, w, options);
    var w' := ExecuteSpec(a.platform, a.config, env, w, options).0;
    if a.platform.validEndpoint(path) {
      RunByOutcomes(a.platform, a.config, env, w, options);
    } else {
      RefusedEndpoint(a.platform, a.config, env, w, options);
    }
    hide ExecuteSpec, ParseToken, UrlIs, IsCorrelationId;
    forall i | |w.sent| <= i < |w'.sent| ensures TokenRequest(a, path, fields, w'.sent[i]) {
      assert Sends(a.platform, a.config, env, w, options, w'.sent[i]);
      assert w'.sent[i].headers.Keys == {"Accept", "X-Correlation-ID"};
    }
  }

  /** Whatever a refresh sends goes to the refresh path with the refresh token, and whatever a generation sends goes
      to the generation path with the keys. */
  lemma TokenRequestsOnTheWire(a: Authority, env: Env, w: World, refresh: Option<TokenState>)
    requires a.config.Valid()
    ensures
      var w' := RequestTokenSpec(a, env, w, refresh).0;
      && w.sent <= w'.sent
      && forall i :: |w.sent| <= i < |w'.sent| ==>
           if refresh.None? then IsGeneration(a, w'.sent[i]) else IsRefresh(a, refresh.value, w'.sent[i])
  {
    hide SendTokenRequest, TokenRequest;
    var credentials := a.serviceConfig.credentials;
    match refresh {
      case None =>
        if credentials.apiKey.Some? && credentials.secretKey.Some? {
          var fields := GenerateOptions(a).body.json.fields;
          GenerateCarries(a);
          SentTokenRequest(a, env, w, GenerateOptions(a), None, a.spec.generatePath, fields);
        }
      case Some(t) =>
        if t.RefreshValue().Some? {
          var fields := RefreshOptions(a, t).body.json.fields;
          assert RefreshFields(a.spec, t.RefreshValue().value, t.access, fields);
          SentTokenRequest(a, env, w, RefreshOptions(a, t), refresh, a.spec.refreshPath, fields);
        }
    }
  }

  lemma GenerateCarries(a: Authority)
    requires a.serviceConfig.credentials.apiKey.Some? && a.serviceConfig.credentials.secretKey.Some?
    ensures GenerateOptions(a).body.json.PyDict?
    ensures GenerationFields(a.spec, a.serviceConfig, GenerateOptions(a).body.json.fields)
  {
  }

  // ----- Which request comes first, and what follows it -----

  /** The cached token has a refresh token, not empty, whose expiry lies outside the leeway. */
  predicate CanRefresh(a: Authority, cached: Option<TokenState>, now: real) {
    && cached.Some? && cached.value.refresh.Some? && cached.value.refresh.value != ""
    && OutsideLeeway(cached.value.refreshExpiresAt, now, a.config.auth.expiryLeeway)
  }

  /** What is sent first is a refresh exactly if the cached token can be refreshed, and a generation otherwise. */
  lemma FirstTokenRequest(a: Authority, env: Env, s: AuthState, cached: Option<TokenState>, now: real)
    requires a.config.Valid() && a.platform.validEndpoint(a.spec.refreshPath)
    ensures
      var (s', r) := RefreshOrAcquireSpec(a, env, s, cached, now);
      && s.w.sent <= s'.w.sent
      && (|s'.w.sent| > |s.w.sent| ==>
            if CanRefresh(a, cached, now) then IsRefresh(a, cached.value, s'.w.sent[|s.w.sent|])
            else IsGeneration(a, s'.w.sent[|s.w.sent|]))
      && (CanRefresh(a, cached, now) ==> |s'.w.sent| > |s.w.sent|)
  {
    hide SendTokenRequest, IsRefresh, IsGeneration, Save;
    TokenRequestsOnTheWire(a, env, s.w, None);
    TokenRequestsOnTheWire(a, env, s.w, cached);
    var w1 := RequestTokenSpec(a, env, s.w, cached).0;
    TokenRequestsOnTheWire(a, env, LogEvent(w1, TokenRefreshFailed), None);
    if CanRefresh(a, cached, now) {
      RefreshIsSent(a, env, s.w, cached.value);
    }
    hide RequestTokenSpec;
  }

  lemma RefreshIsSent(a: Authority, env: Env, w: World, t: TokenState)
    requires a.config.Valid() && a.platform.validEndpoint(a.spec.refreshPath) && t.RefreshValue().Some?
    ensures |RequestTokenSpec(a, env, w, Some(t)).0.sent| > |w.sent|
  {
    var fields := RefreshOptions(a, t).body.json.fields;
    SentTokenRequest(a, env, w, RefreshOptions(a, t), Some(t), a.spec.refreshPath, fields);
    hide SendTokenRequest, TokenRequest;
  }

  /** Without a refresh token, or with one whose expiry lies within the leeway, nothing but the credential call
      happens. */
  lemma WithoutRefreshToken(a: Authority, env: Env, s: AuthState, cached: Option<TokenState>, now: real)
    requires
      || cached.None? || cached.value.refresh.None?
      || !OutsideLeeway(cached.value.refreshExpiresAt, now, a.config.auth.expiryLeeway)
    ensures RefreshOrAcquireSpec(a, env, s, cached, now) == AcquireSpec(a, env, s)
  {
    hide AcquireSpec, RequestTokenSpec;
  }

  /** A refresh gives way to the credentials exactly when its last answer is a 400, a 401 or a 422; any other result
      is the result of the whole. */
  lemma RefreshGivesWayIff(a: Authority, env: Env, s: AuthState, cached: Option<TokenState>, now: real)
    requires a.config.Valid() && a.platform.validEndpoint(a.spec.refreshPath) && CanRefresh(a, cached, now)
    ensures
      var (s', r) := RefreshOrAcquireSpec(a, env, s, cached, now);
      var (w1, refreshed) := RequestTokenSpec(a, env, s.w, cached);
      && |w1.sent| > |s.w.sent|
      && var o := env.outcomes(|w1.sent| - 1);
         if o.Response? && (o.status == 400 || o.status == 401 || o.status == 422)
         then (s', r) == AcquireSpec(a, env, s.(w := LogEvent(w1, TokenRefreshFailed)))
         else r == refreshed && s'.w.sent == w1.sent
  {
    hide AcquireSpec, Save;
    RefreshIsSent(a, env, s.w, cached.value);
    var options := RefreshOptions(a, cached.value);
    var (w1, refreshed) := RequestTokenSpec(a, env, s.w, cached);
    ResultByOutcome(a.platform, a.config, env, s.w, options);
    var cid :| IsCorrelationId(env, s.w, options, cid)
      && Results(options, cid, env.outcomes(|w1.sent| - 1), ExecuteSpec(a.platform, a.config, env, s.w, options).1);
    RunByOutcomes(a.platform, a.config, env, s.w, options);
    hide ExecuteSpec, ParseToken, IsCorrelationId;
  }

  /** Token requests are repeated: one that ends in a timeout or a network failure made every attempt. */
  lemma TokenRequestsAreRepeated(a: Authority, env: Env, w: World, refresh: Option<TokenState>)
    requires a.config.Valid()
    ensures
      var (w', r) := RequestTokenSpec(a, env, w, refresh);
      r.Raised? && (r.error.kind == Timeout || r.error.kind == Network) ==>
        |w'.sent| == |w.sent| + a.config.retry.maxAttempts
  {
    forall options: RequestOptions | MayRepeat(options)
      ensures
        var (w', r) := ExecuteSpec(a.platform, a.config, env, w, options);
        r.Raised? && (r.error.kind == Timeout || r.error.kind == Network) ==>
          |w'.sent| == |w.sent| + a.config.retry.maxAttempts
    {
      RepeatedToTheEnd(a, env, w, options);
    }
    hide ExecuteSpec, ParseToken;
  }

  lemma RepeatedToTheEnd(a: Authority, env: Env, w: World, options: RequestOptions)
    requires a.config.Valid() && MayRepeat(options)
    ensures
      var (w', r) := ExecuteSpec(a.platform, a.config, env, w, options);
      r.Raised? && (r.error.kind == Timeout || r.error.kind == Network) ==>
        |w'.sent| == |w.sent| + a.config.retry.maxAttempts
  {
    if a.platform.validEndpoint(options.path) {
      RunByOutcomes(a.platform, a.config, env, w, options);
      ResultByOutcome(a.platform, a.config, env, w, options);
    } else {
      RefusedEndpoint(a.platform, a.config, env, w, options);
    }
    hide ExecuteSpec, MayRepeat, IsCorrelationId;
  }

  // ----- What a response becomes -----

  /** The named field holds this positive whole number, true counting as one. */
  predicate FieldIs(body: map<string, PyValue>, field: Option<string>, n: int) {
    && field.Some? && field.value in body && n > 0
    && (body[field.value] == PyInt(n) || (n == 1 && body[field.value] == PyBool(true)))
  }

  lemma IntegerFieldIff(body: map<string, PyValue>, field: Option<string>, n: int)
    ensures IntegerField(body, field) == Some(n) <==> FieldIs(body, field, n)
  {
  }

  /** The text under the name, if there is one and it is not empty. */
  predicate TextUnder(body: map<string, PyValue>, name: string, text: string) {
    name in body && body[name] == PyStr(text) && text != ""
  }

  /** The parts of a parsed token: its access token, its refresh token or else the previous one, its type or else
      "Bearer", and its scopes or else the configured ones. */
  lemma ParsedTokenParts(a: Authority, body: map<string, PyValue>, previous: Option<TokenState>, now: real)
    requires a.platform.Valid() && HasAccessToken(a, body)
    ensures
      var t := ParseToken(a, body, previous, now);
      && TextUnder(body, a.spec.accessField, t.access)
      && (forall text :: TextUnder(body, a.spec.refreshField, text) ==> t.refresh == Some(text))
      && ((forall text :: !TextUnder(body, a.spec.refreshField, text)) ==>
            t.refresh == if previous.Some? && previous.value.refresh != Some("") then previous.value.refresh else None)
      && (forall text :: TextUnder(body, "tokenType", text) ==> t.tokenType == text)
      && ("tokenType" !in body ==> t.tokenType == "Bearer")
      && ("scopes" !in body || !body["scopes"].PyList? ==> t.scopes == a.serviceConfig.scopes)
      && ("scopes" in body && body["scopes"].PyList? ==>
            && |t.scopes| == |body["scopes"].items|
            && forall i :: 0 <= i < |t.scopes| ==> t.scopes[i] == a.platform.str(body["scopes"].items[i]))
  {
    hide JwtExpiry;
    var supplied := SuppliedRefresh(a, body);
    assert supplied.Some? ==> TextUnder(body, a.spec.refreshField, supplied.value);
  }

  /** The refresh token lasts as long as the response field says, or else the documented lifetime; without either, a
      token that is the previous one keeps its expiry, and any other has none. */
  lemma RefreshTokenLifetime(a: Authority, body: map<string, PyValue>, previous: Option<TokenState>, now: real)
    requires HasAccessToken(a, body)
    ensures
      var t := ParseToken(a, body, previous, now);
      && (forall n :: FieldIs(body, a.spec.refreshExpiresInField, n) ==> t.refreshExpiresAt == Some(now + n as real))
      && ((forall n :: !FieldIs(body, a.spec.refreshExpiresInField, n)) ==>
            t.refreshExpiresAt ==
              if a.spec.refreshTtl.Some? then Some(now + a.spec.refreshTtl.value as real)
              else if previous.Some? && t.refresh == previous.value.RefreshValue() then previous.value.refreshExpiresAt
              else None)
  {
    hide JwtExpiry;
    var field := IntegerField(body, a.spec.refreshExpiresInField);
    forall n ensures field == Some(n) <==> FieldIs(body, a.spec.refreshExpiresInField, n) {
      IntegerFieldIff(body, a.spec.refreshExpiresInField, n);
    }
    hide IntegerField, FieldIs;
    if field.Some? {
      assert FieldIs(body, a.spec.refreshExpiresInField, field.value);
    }
  }

  /** The documented token endpoints, names and lifetimes. */
  lemma DocumentedEndpoints(service: ServiceName)
    ensures AuthSpecOf(service).Some? ==>
      var spec := AuthSpecOf(service).value;
      var snake := service == DirectDebit || service == Sms;
      var dated := service == PaymentGateway || service == Transfers || service == Identicator;
      && spec.apiKeyField == (if snake then "api_key" else "apiKey")
      && spec.secretKeyField == (if snake then "secret_key" else "secretKey")
      && spec.accessField == (if snake then "access_token" else "accessToken")
      && spec.refreshField == (if snake then "refresh_token" else "refreshToken")
      && spec.refreshTokenField == spec.refreshField
      && spec.refreshAccessField ==
           (if service == PaymentGateway || service == Contracts then None else Some(spec.accessField))
      && spec.scopesField == (if service == Cobank then Some("scopes") else None)
      && spec.expiresInField == (if service == Contracts then Some("expiresIn") else None)
      && spec.refreshExpiresInField == (if service == Contracts then Some("refreshTokenExpiresIn") else None)
      && spec.accessTtl == (if dated then Some(86400) else None)
      && spec.refreshTtl == (if dated then Some(172800) else None)
    ensures AuthSpecOf(service).None? <==> service == Kyc
    ensures AuthSpecOf(service).Some? ==>
      var spec := AuthSpecOf(service).value;
      && spec.service == service
      && (spec.generatePath, spec.refreshPath) ==
           (match service
            case PaymentGateway => ("/ppg/v3/tokens", "/ppg/v3/tokens/refresh")
            case Transfers => ("/trf/v2/tokens/generate", "/trf/v2/tokens/refresh")
            case Cobank => ("/cobank/v1/tokens/generate", "/cobank/v1/tokens/refresh")
            case Identicator => ("/ide/v1/tokens/generate", "/ide/v1/tokens/refresh")
            case DirectDebit => ("/directdebit/api/v1/auth/authenticate", "/directdebit/api/v1/auth/refresh-token")
            case Sms => ("/pulse/api/v1/auth/authenticate", "/pulse/api/v1/auth/refresh-token")
            case Contracts => ("/mzahub/v1/auth/login", "/mzahub/v1/auth/refresh")
            case Kyc => ("", ""))
  {
  }
}

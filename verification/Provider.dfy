/** src/jibit/auth/provider.py and src/jibit/auth/specs.py: acquiring, refreshing and recovering
    the token of one service, one call at a time. */
module Provider {
  import opened PyValues
  import opened Retry
  import opened Config
  import opened Engine
  import opened Tokens
  import opened Stores

  // ----- Token endpoint contracts -----

  datatype AuthSpec = AuthSpec(
    service: ServiceName, generatePath: string, refreshPath: string, apiKeyField: string, secretKeyField: string,
    accessField: string, refreshField: string, refreshTokenField: string, refreshAccessField: Option<string>,
    scopesField: Option<string>, expiresInField: Option<string>, refreshExpiresInField: Option<string>,
    accessTtl: Option<int>, refreshTtl: Option<int>)

  /** The documented contracts; the KYC service has none. */
  function AuthSpecOf(service: ServiceName): Option<AuthSpec> {
    match service
    case PaymentGateway => Some(AuthSpec(service, "/ppg/v3/tokens", "/ppg/v3/tokens/refresh", "apiKey", "secretKey",
      "accessToken", "refreshToken", "refreshToken", None, None, None, None, Some(86400), Some(172800)))
    case Transfers => Some(AuthSpec(service, "/trf/v2/tokens/generate", "/trf/v2/tokens/refresh", "apiKey", "secretKey",
      "accessToken", "refreshToken", "refreshToken", Some("accessToken"), None, None, None, Some(86400), Some(172800)))
    case Cobank => Some(AuthSpec(
      service, "/cobank/v1/tokens/generate", "/cobank/v1/tokens/refresh", "apiKey", "secretKey",
      "accessToken", "refreshToken", "refreshToken", Some("accessToken"), Some("scopes"), None, None, None, None))
    case Identicator => Some(AuthSpec(
      service, "/ide/v1/tokens/generate", "/ide/v1/tokens/refresh", "apiKey", "secretKey",
      "accessToken", "refreshToken", "refreshToken", Some("accessToken"), None, None, None, Some(86400), Some(172800)))
    case Kyc => None
    case DirectDebit => Some(AuthSpec(
      service, "/directdebit/api/v1/auth/authenticate", "/directdebit/api/v1/auth/refresh-token",
      "api_key", "secret_key", "access_token", "refresh_token", "refresh_token", Some("access_token"),
      None, None, None, None, None))
    case Sms => Some(AuthSpec(service, "/pulse/api/v1/auth/authenticate", "/pulse/api/v1/auth/refresh-token",
      "api_key", "secret_key", "access_token", "refresh_token", "refresh_token", Some("access_token"),
      None, None, None, None, None))
    case Contracts => Some(AuthSpec(service, "/mzahub/v1/auth/login", "/mzahub/v1/auth/refresh", "apiKey", "secretKey",
      "accessToken", "refreshToken", "refreshToken", None, None,
      Some("expiresIn"), Some("refreshTokenExpiresIn"), None, None))
  }

  /** What one authenticator was configured with. */
  datatype Authority = Authority(platform: Platform, config: JibitConfig, spec: AuthSpec,
      serviceConfig: ServiceConfig, kind: StoreKind)
  {
    ghost predicate Valid() {
      platform.Valid() && config.Valid()
    }

    function Leeway(): real { config.auth.Leeway() }
  }

  /** Every service with a contract has authorities that meet the assumptions. */
  lemma AuthoritiesExist(service: ServiceName)
    requires AuthSpecOf(service).Some?
    ensures exists a: Authority :: a.Valid() && AuthSpecOf(service) == Some(a.spec)
  {
    PlatformsExist();
    var platform: Platform :| platform.Valid();
    var config := JibitConfig("", RetryConfig(1, 0.0, 0.0, 0.0), AuthConfig(0, None), map[]);
    var credentials := Credentials(None, None, None);
    var a := Authority(platform, config, AuthSpecOf(service).value, ServiceConfig(credentials, None, []), InMemory);
    assert a.Valid();
  }

  // ----- Parsing a token response -----

  /** Booleans are integers in the host language, so true counts as one. */
  function IntegerField(body: map<string, PyValue>, field: Option<string>): (r: Option<int>)
    ensures r.Some? ==> r.value > 0
  {
    if field.None? then None
    else
      match Get(body, field.value)
      case PyInt(n) => if n > 0 then Some(n) else None
      case PyBool(b) => if b then Some(1) else None
      case _ => None
  }

  function OrElse(first: Option<int>, second: Option<int>): Option<int> {
    if first.Some? && first.value != 0 then first else second
  }

  predicate HasAccessToken(a: Authority, body: map<string, PyValue>) {
    var access := Get(body, a.spec.accessField);
    access.PyStr? && access.s != ""
  }

  /** The refresh token the response supplies, if any. */
  function SuppliedRefresh(a: Authority, body: map<string, PyValue>): Option<string> {
    var refresh := Get(body, a.spec.refreshField);
    if refresh.PyStr? && refresh.s != "" then Some(refresh.s) else None
  }

  function AccessTtl(a: Authority, body: map<string, PyValue>): Option<int> {
    var ttl := IntegerField(body, a.spec.expiresInField);
    if ttl.Some? then ttl else OrElse(a.spec.accessTtl, a.config.auth.unknownTtl)
  }

  function RefreshTtl(a: Authority, body: map<string, PyValue>): Option<int> {
    var ttl := IntegerField(body, a.spec.refreshExpiresInField);
    if ttl.Some? then ttl else a.spec.refreshTtl
  }

  /** `_parse_token` for a response that has an access token, read at time `now`. */
  function ParseToken(a: Authority, body: map<string, PyValue>, previous: Option<TokenState>, now: real): TokenState
    requires HasAccessToken(a, body)
  {
    var access := Get(body, a.spec.accessField).s;
    var supplied := SuppliedRefresh(a, body);
    var refresh := if supplied.Some? then supplied else if previous.Some? then previous.value.RefreshValue() else None;
    var claimed := JwtExpiry(a.platform, access);
    var expiresAt :=
      if claimed.Some? then claimed
      else if AccessTtl(a, body).Some? then Some(now + AccessTtl(a, body).value as real) else None;
    var refreshExpiresAt :=
      if RefreshTtl(a, body).Some? then Some(now + RefreshTtl(a, body).value as real)
      else if previous.Some? && refresh == previous.value.RefreshValue() then previous.value.refreshExpiresAt
      else None;
    var scopes := Get(body, "scopes");
    TokenState(access, refresh, expiresAt, refreshExpiresAt, TokenTypeOf(a.platform, Get(body, "tokenType")),
               if scopes.PyList? then StrAll(a.platform, scopes.items) else a.serviceConfig.scopes)
  }

  // ----- The requests -----

  function TokenOptions(a: Authority, operation: string, path: string, json: map<string, PyValue>): RequestOptions {
    RequestOptions(a.spec.service, operation, "POST", path, Idempotent, map[],
                   RequestBody(PyNone, PyDict(json), PyNone, PyNone), None, None)
  }

  function GenerateOptions(a: Authority): RequestOptions
    requires a.serviceConfig.credentials.apiKey.Some? && a.serviceConfig.credentials.secretKey.Some?
  {
    var credentials := a.serviceConfig.credentials;
    var key := map[a.spec.apiKeyField := PyStr(credentials.apiKey.value)];
    var body := key[a.spec.secretKeyField := PyStr(credentials.secretKey.value)];
    var scopes := a.serviceConfig.scopes;
    var full :=
      if a.spec.scopesField.Some? && scopes != []
      then body[a.spec.scopesField.value := PyList(seq(|scopes|, i requires 0 <= i < |scopes| => PyStr(scopes[i])))]
      else body;
    TokenOptions(a, "generate_token", a.spec.generatePath, full)
  }

  function RefreshOptions(a: Authority, t: TokenState): RequestOptions
    requires t.RefreshValue().Some?
  {
    var body := map[a.spec.refreshTokenField := PyStr(t.RefreshValue().value)];
    var full :=
      if a.spec.refreshAccessField.Some? then body[a.spec.refreshAccessField.value := PyStr(t.access)] else body;
    TokenOptions(a, "refresh_token", a.spec.refreshPath, full)
  }

  const NO_API_KEY := JibitError(Configuration, None, None, false)
  const NO_REFRESH_TOKEN := JibitError(Authentication, None, None, false)
  const BAD_TOKEN_RESPONSE := JibitError(BadResponse, None, None, false)

  // ----- Specification of the calls -----

  /** The world, and what the store holds under the authenticator's key. */
  datatype AuthState = AuthState(w: World, raw: RawEntry)

  function LogEvent(w: World, e: Event): World {
    w.(events := w.events + [e])
  }

  function SendTokenRequest(a: Authority, env: Env, w: World, options: RequestOptions,
      previous: Option<TokenState>): (World, Result<TokenState, JibitError>) {
    var (w', r) := ExecuteSpec(a.platform, a.config, env, w, options);
    match r
    case Raised(e) => (w', Raised(e))
    case Ok(response) =>
      if response.content.NotJson? then
        (w', Raised(JibitError(BadResponse, Some(response.status), Some(response.correlationId), false)))
      else if !response.content.value.PyDict? || !HasAccessToken(a, response.content.value.fields) then
        (w', Raised(BAD_TOKEN_RESPONSE))
      else
        (w'.(clockReads := w'.clockReads + 1),
         Ok(ParseToken(a, response.content.value.fields, previous, env.clock(w'.clockReads))))
  }

  function RequestTokenSpec(a: Authority, env: Env, w: World,
      refresh: Option<TokenState>): (World, Result<TokenState, JibitError>) {
    match refresh
    case None =>
      if a.serviceConfig.credentials.apiKey.None? || a.serviceConfig.credentials.secretKey.None? then
        (w, Raised(NO_API_KEY))
      else SendTokenRequest(a, env, w, GenerateOptions(a), None)
    case Some(t) =>
      if t.RefreshValue().None? then (w, Raised(NO_REFRESH_TOKEN))
      else SendTokenRequest(a, env, w, RefreshOptions(a, t), refresh)
  }

  /** An unreadable entry is deleted and counts as absent. */
  function SafeGetSpec(a: Authority, s: AuthState): (AuthState, Option<TokenState>) {
    match Load(a.platform, a.kind, s.raw)
    case Missing => (s, None)
    case Loaded(t) => (s, Some(t))
    case Unreadable => (s.(raw := Empty), None)
  }

  function AcquireSpec(a: Authority, env: Env, s: AuthState): (AuthState, Result<TokenState, JibitError>) {
    var (w, r) := RequestTokenSpec(a, env, s.w, None);
    match r
    case Raised(e) => (s.(w := w), r)
    case Ok(t) => (AuthState(LogEvent(w, TokenAcquired), Save(a.platform, a.kind, t)), r)
  }

  /** The failures of a refresh that lead to the credential call instead of an exception. */
  predicate RefreshRejected(e: JibitError) {
    e.kind == Authentication || e.kind == Validation
  }

  function RefreshOrAcquireSpec(a: Authority, env: Env, s: AuthState, cached: Option<TokenState>,
      now: real): (AuthState, Result<TokenState, JibitError>) {
    if cached.Some? && cached.value.IsRefreshValid(now, a.Leeway()) then
      var (w, r) := RequestTokenSpec(a, env, s.w, cached);
      match r
      case Ok(t) => (AuthState(LogEvent(w, TokenRefreshed), Save(a.platform, a.kind, t)), r)
      case Raised(e) =>
        if RefreshRejected(e) then AcquireSpec(a, env, s.(w := LogEvent(w, TokenRefreshFailed)))
        else (s.(w := w), r)
    else AcquireSpec(a, env, s)
  }

  function Tick(s: AuthState): AuthState {
    s.(w := s.w.(clockReads := s.w.clockReads + 1))
  }

  function GetTokenSpec(a: Authority, env: Env, s: AuthState): (AuthState, Result<TokenState, JibitError>) {
    var now := env.clock(s.w.clockReads);
    var (s1, cached) := SafeGetSpec(a, Tick(s));
    if cached.Some? && cached.value.IsAccessValid(now, a.Leeway()) then (s1, Ok(cached.value))
    else
      var now2 := env.clock(s1.w.clockReads);
      var (s2, cached2) := SafeGetSpec(a, Tick(s1));
      if cached2.Some? && cached2.value.IsAccessValid(now2, a.Leeway()) then (s2, Ok(cached2.value))
      else RefreshOrAcquireSpec(a, env, s2, cached2, now2)
  }

  function RecoverSpec(a: Authority, env: Env, s: AuthState,
      rejected: string): (AuthState, Result<TokenState, JibitError>) {
    var (s1, cached) := SafeGetSpec(a, s);
    var now := env.clock(s1.w.clockReads);
    var s2 := Tick(s1);
    if cached.Some? && cached.value.access != rejected && cached.value.IsAccessValid(now, a.Leeway()) then
      (s2, Ok(cached.value))
    else RefreshOrAcquireSpec(a, env, s2, cached, now)
  }

  function InvalidateSpec(s: AuthState): AuthState {
    s.(raw := Empty)
  }

  // ----- The authenticator -----

  class ServiceAuthenticator {
    const authority: Authority
    const engine: RequestEngine
    const store: TokenStore
    const key: string

    constructor (authority: Authority, engine: RequestEngine, store: TokenStore, key: string)
      ensures this.authority == authority && this.engine == engine && this.store == store && this.key == key
    {
      this.authority, this.engine, this.store, this.key := authority, engine, store, key;
    }

    ghost predicate Valid() {
      && authority.config.Valid()
      && engine.platform == authority.platform
      && engine.config == authority.config
      && store.On(authority.platform)
      && store.Kind() == authority.kind
      && store.Footprint() != engine.host
    }

    ghost function State(): AuthState
      reads engine.host, store.Footprint()
    {
      AuthState(engine.host.Snapshot(), store.RawAt(key))
    }

    /** The entries of all other keys. */
    twostate predicate OthersKept()
      reads store.Footprint()
    {
      forall other | other != key :: store.RawAt(other) == old(store.RawAt(other))
    }

    method SafeGet() returns (cached: Option<TokenState>)
      requires Valid()
      modifies store.Footprint()
      ensures (State(), cached) == SafeGetSpec(authority, old(State())) && OthersKept()
    {
      var loaded := store.Get(authority.platform, key);
      match loaded {
        case Missing => cached := None;
        case Loaded(t) => cached := Some(t);
        case Unreadable =>
          store.Delete(key);
          cached := None;
      }
    }

    method RequestToken(refresh: Option<TokenState>) returns (r: Result<TokenState, JibitError>)
      requires Valid()
      modifies engine.host
      ensures (engine.host.Snapshot(), r)
          == RequestTokenSpec(authority, engine.host.env, old(engine.host.Snapshot()), refresh)
      ensures store.RawAt(key) == old(store.RawAt(key)) && OthersKept()
    {
      hide ExecuteSpec, ParseToken;
      var options: RequestOptions;
      if refresh.None? {
        var credentials := authority.serviceConfig.credentials;
        if credentials.apiKey.None? || credentials.secretKey.None? {
          return Raised(NO_API_KEY);
        }
        options := GenerateOptions(authority);
      } else {
        if refresh.value.RefreshValue().None? {
          return Raised(NO_REFRESH_TOKEN);
        }
        options := RefreshOptions(authority, refresh.value);
      }
      var raw := engine.Execute(options);
      if raw.Raised? {
        return Raised(raw.error);
      }
      var content := raw.value.content;
      if content.NotJson? {
        return Raised(JibitError(BadResponse, Some(raw.value.status), Some(raw.value.correlationId), false));
      }
      if !content.value.PyDict? || !HasAccessToken(authority, content.value.fields) {
        return Raised(BAD_TOKEN_RESPONSE);
      }
      var now := engine.host.ReadClock();
      return Ok(ParseToken(authority, content.value.fields, refresh, now));
    }

    method RefreshOrAcquire(cached: Option<TokenState>, now: real) returns (r: Result<TokenState, JibitError>)
      requires Valid()
      modifies engine.host, store.Footprint()
      ensures (State(), r) == RefreshOrAcquireSpec(authority, engine.host.env, old(State()), cached, now)
          && OthersKept()
    {
      hide RequestTokenSpec, Save, Load;
      if cached.Some? && cached.value.IsRefreshValid(now, authority.Leeway()) {
        r := RequestToken(cached);
        if r.Ok? {
          store.Set(authority.platform, key, r.value);
          engine.host.Emit(TokenRefreshed);
          return;
        }
        if !RefreshRejected(r.error) {
          return;
        }
        engine.host.Emit(TokenRefreshFailed);
      }
      r := RequestToken(None);
      if r.Ok? {
        store.Set(authority.platform, key, r.value);
        engine.host.Emit(TokenAcquired);
      }
    }

    method GetToken() returns (r: Result<TokenState, JibitError>)
      requires Valid()
      modifies engine.host, store.Footprint()
      ensures (State(), r) == GetTokenSpec(authority, engine.host.env, old(State())) && OthersKept()
    {
      hide RefreshOrAcquireSpec, Load;
      var now := engine.host.ReadClock();
      var cached := SafeGet();
      if cached.Some? && cached.value.IsAccessValid(now, authority.Leeway()) {
        return Ok(cached.value);
      }
      now := engine.host.ReadClock();
      cached := SafeGet();
      if cached.Some? && cached.value.IsAccessValid(now, authority.Leeway()) {
        return Ok(cached.value);
      }
      r := RefreshOrAcquire(cached, now);
    }

    method RecoverFromUnauthorized(rejected: string) returns (r: Result<TokenState, JibitError>)
      requires Valid()
      modifies engine.host, store.Footprint()
      ensures (State(), r) == RecoverSpec(authority, engine.host.env, old(State()), rejected) && OthersKept()
    {
      hide RefreshOrAcquireSpec, Load;
      var cached := SafeGet();
      var now := engine.host.ReadClock();
      if cached.Some? && cached.value.access != rejected && cached.value.IsAccessValid(now, authority.Leeway()) {
        return Ok(cached.value);
      }
      r := RefreshOrAcquire(cached, now);
    }

    method Invalidate()
      requires Valid()
      modifies store.Footprint()
      ensures State() == InvalidateSpec(old(State())) && OthersKept()
    {
      store.Delete(key);
    }
  }
}

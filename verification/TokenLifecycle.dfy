/** What the token calls promise: canonical tokens, refresh fallback, refresh-token lineage, bounded
    traffic, and the same behaviour over every kind of store. */
module TokenLifecycle {
  import opened PyValues
  import opened Retry
  import opened Config
  import opened Engine
  import opened Tokens
  import opened Stores
  import opened Provider
  import opened Base64Url

  // ----- Canonical tokens -----

  /** Every token a response yields survives serialisation. */
  lemma ParsedTokensAreCanonical(a: Authority, body: map<string, PyValue>, previous: Option<TokenState>, now: real)
    requires a.platform.Valid() && HasAccessToken(a, body)
    ensures ParseToken(a, body, previous, now).Canonical()
  {
    hide JwtExpiry;
  }

  lemma RequestedTokensAreCanonical(a: Authority, env: Env, w: World, refresh: Option<TokenState>)
    requires a.platform.Valid()
    ensures var r := RequestTokenSpec(a, env, w, refresh).1; r.Ok? ==> r.value.Canonical()
  {
    hide ExecuteSpec, ParseToken;
    if refresh.None? && RequestTokenSpec(a, env, w, refresh).1.Ok? {
      SentTokensAreCanonical(a, env, w, GenerateOptions(a), None);
    } else if refresh.Some? && refresh.value.RefreshValue().Some? {
      SentTokensAreCanonical(a, env, w, RefreshOptions(a, refresh.value), refresh);
    }
  }

  lemma SentTokensAreCanonical(a: Authority, env: Env, w: World, options: RequestOptions, previous: Option<TokenState>)
    requires a.platform.Valid()
    ensures var r := SendTokenRequest(a, env, w, options, previous).1; r.Ok? ==> r.value.Canonical()
  {
    hide ExecuteSpec, ParseToken;
    var (w', r) := ExecuteSpec(a.platform, a.config, env, w, options);
    if r.Ok? && r.value.content.Json? && r.value.content.value.PyDict?
        && HasAccessToken(a, r.value.content.value.fields) {
      ParsedTokensAreCanonical(a, r.value.content.value.fields, previous, env.clock(w'.clockReads));
    }
  }

  /** A token that was just saved is the one the store gives back. */
  lemma SavedTokenLoads(a: Authority, t: TokenState)
    requires a.platform.Valid() && t.Canonical()
    ensures Load(a.platform, a.kind, Save(a.platform, a.kind, t)) == Loaded(t)
  {
    LoadOfSaveIff(a.platform, a.kind, t);
  }

  // ----- Expiry of a parsed token -----

  /** The expiry claim of a JWT decides, whatever else the response says: bytes the issuer encoded are read back,
      and the claim is taken over if it is a number or a text that reads as one. */
  lemma JwtClaimDecidesExpiry(a: Authority, body: map<string, PyValue>, previous: Option<TokenState>, now: real,
                              header: string, payload: seq<Byte>, signature: string, claims: map<string, PyValue>)
    requires HasAccessToken(a, body)
    requires Get(body, a.spec.accessField).s == header + ['.'] + (Unpadded(payload) + ['.'] + signature)
    requires '.' !in header && '.' !in signature
    requires a.platform.loadsBytes(payload) == Some(PyDict(claims))
    ensures
      var claim := Get(claims, "exp");
      var t := ParseToken(a, body, previous, now);
      && (claim.PyInt? ==> t.expiresAt == Some(claim.n as real))
      && (claim.PyFloat? ==> t.expiresAt == Some(claim.x))
      && (claim.PyStr? && a.platform.floatOfString(claim.s).Some? ==> t.expiresAt == a.platform.floatOfString(claim.s))
      && (FloatOf(a.platform, claim).Some? ==> t.expiresAt == FloatOf(a.platform, claim))
      && (FloatOf(a.platform, claim).None? ==>
            t.expiresAt == if AccessTtl(a, body).Some? then Some(now + AccessTtl(a, body).value as real) else None)
  {
    JwtPayloadRecovered(a.platform, header, payload, signature, claims);
    hide JwtExpiry, Unpadded;
  }

  /** A token that carries no expiry lasts a positive time from the moment it is parsed, or has no expiry at all:
      the response field decides before the documented lifetime, and that before the configured one. */
  lemma OpaqueTokenLifetime(a: Authority, body: map<string, PyValue>, previous: Option<TokenState>, now: real)
    requires a.config.Valid() && HasAccessToken(a, body)
    requires forall at: real :: !CarriesExpiry(a.platform, Get(body, a.spec.accessField).s, at)
    requires AuthSpecOf(a.spec.service) == Some(a.spec)
    ensures
      var t := ParseToken(a, body, previous, now);
      var field := IntegerField(body, a.spec.expiresInField);
      && (t.expiresAt.None? <==> field.None? && a.spec.accessTtl.None? && a.config.auth.unknownTtl.None?)
      && (t.expiresAt.Some? ==> t.expiresAt.value > now && t.IsAccessValid(now, 0.0))
      && (field.Some? ==> t.expiresAt == Some(now + field.value as real))
      && (field.None? && a.spec.accessTtl.Some? ==> t.expiresAt == Some(now + 86400.0))
      && (field.None? && a.spec.accessTtl.None? && a.config.auth.unknownTtl.Some? ==>
            t.expiresAt == Some(now + a.config.auth.unknownTtl.value as real))
  {
    hide JwtExpiry, CarriesExpiry;
    var access := Get(body, a.spec.accessField).s;
    if JwtExpiry(a.platform, access).Some? {
      JwtExpiryIff(a.platform, access, JwtExpiry(a.platform, access).value);
    }
  }

  /** A token that carries an expiry has that one, whatever the response fields and the lifetimes say. */
  lemma CarriedExpiryDecides(a: Authority, body: map<string, PyValue>, previous: Option<TokenState>, now: real,
      at: real)
    requires HasAccessToken(a, body) && CarriesExpiry(a.platform, Get(body, a.spec.accessField).s, at)
    ensures ParseToken(a, body, previous, now).expiresAt == Some(at)
  {
    hide JwtExpiry, CarriesExpiry;
    JwtExpiryIff(a.platform, Get(body, a.spec.accessField).s, at);
  }

  /** In particular a token without exactly two dots lasts as the response and the lifetimes say. */
  lemma DotlessTokenLifetime(a: Authority, body: map<string, PyValue>, previous: Option<TokenState>, now: real)
    requires HasAccessToken(a, body) && Dots(Get(body, a.spec.accessField).s) != 2
    ensures ParseToken(a, body, previous, now).expiresAt
      == if AccessTtl(a, body).Some? then Some(now + AccessTtl(a, body).value as real) else None
  {
    hide JwtExpiry, CarriesExpiry;
    var access := Get(body, a.spec.accessField).s;
    if JwtExpiry(a.platform, access).Some? {
      var at := JwtExpiry(a.platform, access).value;
      JwtExpiryIff(a.platform, access, at);
      OpaqueByDots(a.platform, access, at);
    }
  }

  /** A refresh presents the cached refresh token, together with the access token where the contract asks for it;
      a generation presents the configured key pair. */
  lemma TokenRequestsCarryCredentials(a: Authority, t: TokenState)
    requires AuthSpecOf(a.spec.service) == Some(a.spec)
    ensures t.RefreshValue().Some? ==>
      var sent := RefreshOptions(a, t).body.json.fields;
      && Get(sent, a.spec.refreshTokenField) == PyStr(t.RefreshValue().value)
      && (a.spec.refreshAccessField.Some? ==> Get(sent, a.spec.refreshAccessField.value) == PyStr(t.access))
      && |sent| == if a.spec.refreshAccessField.Some? then 2 else 1
    ensures a.serviceConfig.credentials.apiKey.Some? && a.serviceConfig.credentials.secretKey.Some? ==>
      var sent := GenerateOptions(a).body.json.fields;
      && Get(sent, a.spec.apiKeyField) == PyStr(a.serviceConfig.credentials.apiKey.value)
      && Get(sent, a.spec.secretKeyField) == PyStr(a.serviceConfig.credentials.secretKey.value)
  {
  }

  // ----- Refresh fallback -----

  /** A refresh that the provider rejects is never what the caller sees: an authentication or validation error
      comes out of the credential call, made after the rejected refresh or instead of it. */
  lemma RefreshRejectionNeverEscapes(a: Authority, env: Env, s: AuthState, cached: Option<TokenState>, now: real)
    ensures
      var (s', r) := RefreshOrAcquireSpec(a, env, s, cached, now);
      var attempted := cached.Some? && cached.value.IsRefreshValid(now, a.Leeway());
      var (w1, refreshed) := RequestTokenSpec(a, env, s.w, cached);
      r.Raised? && RefreshRejected(r.error) ==>
        && (attempted ==> refreshed.Raised? && RefreshRejected(refreshed.error))
        && r == RequestTokenSpec(a, env, if attempted then LogEvent(w1, TokenRefreshFailed) else s.w, None).1
  {
    hide RequestTokenSpec;
    var (w1, refreshed) := RequestTokenSpec(a, env, s.w, cached);
  }

  /** Any raised error leaves the store entry as it was; any returned token is the new entry. */
  lemma EntryFollowsResult(a: Authority, env: Env, s: AuthState, cached: Option<TokenState>, now: real)
    requires a.platform.Valid()
    ensures
      var (s', r) := RefreshOrAcquireSpec(a, env, s, cached, now);
      && (r.Raised? ==> s'.raw == s.raw)
      && (r.Ok? ==> r.value.Canonical() && Load(a.platform, a.kind, s'.raw) == Loaded(r.value))
  {
    hide RequestTokenSpec, Load, Save;
    forall w, refresh ensures var r := RequestTokenSpec(a, env, w, refresh).1; r.Ok? ==> r.value.Canonical() {
      RequestedTokensAreCanonical(a, env, w, refresh);
    }
    forall t: TokenState | t.Canonical() ensures Load(a.platform, a.kind, Save(a.platform, a.kind, t)) == Loaded(t) {
      SavedTokenLoads(a, t);
    }
  }

  // ----- Lineage of the refresh token -----

  datatype RefreshReply = RefreshReply(body: map<string, PyValue>, at: real)

  /** The token after a chain of successful refreshes, each answered by one reply. */
  function Lineage(a: Authority, first: TokenState, replies: seq<RefreshReply>): TokenState
    requires forall r <- replies :: HasAccessToken(a, r.body)
  {
    if replies == [] then first
    else
      var n := |replies| - 1;
      ParseToken(a, replies[n].body, Some(Lineage(a, first, replies[..n])), replies[n].at)
  }

  /** The last refresh token any reply supplied, or else the first one. */
  function LatestSupplied(a: Authority, first: string, replies: seq<RefreshReply>): string {
    if replies == [] then first
    else
      var n := |replies| - 1;
      var supplied := SuppliedRefresh(a, replies[n].body);
      if supplied.Some? then supplied.value else LatestSupplied(a, first, replies[..n])
  }

  /** Along any chain of refreshes the refresh token is never lost: it is the last one supplied. */
  lemma {:induction false} LineageKeepsRefreshToken(a: Authority, first: TokenState, replies: seq<RefreshReply>)
    requires first.RefreshValue().Some?
    requires forall r <- replies :: HasAccessToken(a, r.body)
    ensures Lineage(a, first, replies).RefreshValue() == Some(LatestSupplied(a, first.RefreshValue().value, replies))
  {
    hide JwtExpiry;
    if replies != [] {
      LineageKeepsRefreshToken(a, first, replies[..|replies| - 1]);
    }
  }

  /** A reply that omits the refresh token keeps that token's own expiry exactly when neither the reply nor the
      contract gives a refresh lifetime, or the lifetime counted from now ends at the same instant; and the expiry moves
      later exactly when that lifetime ends later. */
  lemma OmittedRefreshKeepsExpiryIff(a: Authority, body: map<string, PyValue>, previous: TokenState, now: real)
    requires HasAccessToken(a, body) && SuppliedRefresh(a, body).None?
    ensures
      var t := ParseToken(a, body, Some(previous), now);
      && t.refresh == previous.RefreshValue()
      && (t.refreshExpiresAt == previous.refreshExpiresAt <==>
            || RefreshTtl(a, body).None?
            || previous.refreshExpiresAt == Some(now + RefreshTtl(a, body).value as real))
      && (t.refreshExpiresAt.Some? && previous.refreshExpiresAt.Some? ==>
            (t.refreshExpiresAt.value > previous.refreshExpiresAt.value <==>
               RefreshTtl(a, body).Some? && now + RefreshTtl(a, body).value as real > previous.refreshExpiresAt.value))
  {
    hide JwtExpiry;
  }

  /** With the payment gateway's documented lifetime, an omitted refresh token is given a later expiry than it had. */
  lemma OmittedRefreshOutlivesItself(a: Authority, previous: TokenState)
    requires AuthSpecOf(PaymentGateway) == Some(a.spec)
    requires previous == TokenState("a1", Some("r1"), Some(86400.0), Some(172800.0), "Bearer", [])
    ensures
      var body := map["accessToken" := PyStr("a2")];
      && HasAccessToken(a, body)
      && ParseToken(a, body, Some(previous), 86400.0).refresh == Some("r1")
      && ParseToken(a, body, Some(previous), 86400.0).refreshExpiresAt == Some(259200.0)
  {
    hide JwtExpiry;
  }

  // ----- Traffic of the token calls -----

  predicate IsAuthorized(request: TransportRequest) {
    "Authorization" in request.headers
  }

  /** From `w` to `w'` at most `n` requests were sent, none of them carrying an Authorization header. */
  predicate TokenTraffic(w: World, w': World, n: int) {
    && w.sent <= w'.sent
    && |w'.sent| <= |w.sent| + n
    && (forall i :: |w.sent| <= i < |w'.sent| ==> !IsAuthorized(w'.sent[i]))
  }

  lemma RequestTraffic(a: Authority, env: Env, w: World, refresh: Option<TokenState>)
    requires a.config.Valid()
    ensures TokenTraffic(w, RequestTokenSpec(a, env, w, refresh).0, a.config.retry.maxAttempts)
  {
    hide ExecuteSpec, ParseToken;
    forall options: RequestOptions | options.headers == map[] && options.idempotencyKey.None?
      ensures TokenTraffic(w, ExecuteSpec(a.platform, a.config, env, w, options).0, a.config.retry.maxAttempts)
    {
      PlainTraffic(a, env, w, options);
    }
  }

  lemma PlainTraffic(a: Authority, env: Env, w: World, options: RequestOptions)
    requires a.config.Valid() && options.headers == map[] && options.idempotencyKey.None?
    ensures TokenTraffic(w, ExecuteSpec(a.platform, a.config, env, w, options).0, a.config.retry.maxAttempts)
  {
    if a.platform.validEndpoint(options.path) {
      RunShape(a.platform, a.config, env, w, options);
    }
  }

  lemma RefreshOrAcquireTraffic(a: Authority, env: Env, s: AuthState, cached: Option<TokenState>, now: real)
    requires a.config.Valid()
    ensures TokenTraffic(s.w, RefreshOrAcquireSpec(a, env, s, cached, now).0.w, 2 * a.config.retry.maxAttempts)
  {
    hide RequestTokenSpec;
    var w1 := RequestTokenSpec(a, env, s.w, cached).0;
    RequestTraffic(a, env, s.w, cached);
    RequestTraffic(a, env, s.w, None);
    RequestTraffic(a, env, LogEvent(w1, TokenRefreshFailed), None);
  }

  /** One call for a token sends at most two runs of requests, one per kind of token request. */
  lemma GetTokenTraffic(a: Authority, env: Env, s: AuthState)
    requires a.config.Valid()
    ensures TokenTraffic(s.w, GetTokenSpec(a, env, s).0.w, 2 * a.config.retry.maxAttempts)
  {
    hide RefreshOrAcquireSpec, Load;
    forall s1: AuthState, cached, now
        ensures TokenTraffic(s1.w, RefreshOrAcquireSpec(a, env, s1, cached, now).0.w, 2 * a.config.retry.maxAttempts) {
      RefreshOrAcquireTraffic(a, env, s1, cached, now);
    }
  }

  lemma RecoverTraffic(a: Authority, env: Env, s: AuthState, rejected: string)
    requires a.config.Valid()
    ensures TokenTraffic(s.w, RecoverSpec(a, env, s, rejected).0.w, 2 * a.config.retry.maxAttempts)
  {
    hide RefreshOrAcquireSpec, Load;
    forall s1: AuthState, cached, now
        ensures TokenTraffic(s1.w, RefreshOrAcquireSpec(a, env, s1, cached, now).0.w, 2 * a.config.retry.maxAttempts) {
      RefreshOrAcquireTraffic(a, env, s1, cached, now);
    }
  }

  // ----- What a token call leaves in the store -----

  /** A returned token is the entry afterwards; an error leaves a readable entry alone. */
  lemma GetTokenEntry(a: Authority, env: Env, s: AuthState)
    requires a.platform.Valid()
    ensures
      var (s', r) := GetTokenSpec(a, env, s);
      && (r.Ok? ==> Load(a.platform, a.kind, s'.raw) == Loaded(r.value))
      && (r.Raised? ==> s'.raw == SafeGetSpec(a, s).0.raw)
  {
    hide RefreshOrAcquireSpec, Load;
    assert Load(a.platform, a.kind, Empty) == Missing by { EmptyIsMissing(a); }
    forall s1: AuthState, cached, now
      ensures
        var (s', r) := RefreshOrAcquireSpec(a, env, s1, cached, now);
        && (r.Raised? ==> s'.raw == s1.raw)
        && (r.Ok? ==> Load(a.platform, a.kind, s'.raw) == Loaded(r.value))
    {
      EntryFollowsResult(a, env, s1, cached, now);
    }
  }

  lemma EmptyIsMissing(a: Authority)
    ensures Load(a.platform, a.kind, Empty) == Missing
  {
  }

  lemma RecoverEntry(a: Authority, env: Env, s: AuthState, rejected: string)
    requires a.platform.Valid()
    ensures
      var (s', r) := RecoverSpec(a, env, s, rejected);
      && (r.Ok? ==> Load(a.platform, a.kind, s'.raw) == Loaded(r.value))
      && (r.Raised? ==> s'.raw == SafeGetSpec(a, s).0.raw)
  {
    hide RefreshOrAcquireSpec, Load;
    forall s1: AuthState, cached, now
      ensures
        var (s', r) := RefreshOrAcquireSpec(a, env, s1, cached, now);
        && (r.Raised? ==> s'.raw == s1.raw)
        && (r.Ok? ==> Load(a.platform, a.kind, s'.raw) == Loaded(r.value))
    {
      EntryFollowsResult(a, env, s1, cached, now);
    }
  }

  // ----- The kind of store does not matter -----

  /** The same world and the same readable content, whatever the backend holds. */
  predicate SameView(a: Authority, s: AuthState, kind: StoreKind, t: AuthState) {
    s.w == t.w && Load(a.platform, a.kind, s.raw) == Load(a.platform, kind, t.raw)
  }

  lemma RequestTokenIgnoresKind(a: Authority, env: Env, w: World, refresh: Option<TokenState>, kind: StoreKind)
    ensures RequestTokenSpec(a, env, w, refresh) == RequestTokenSpec(a.(kind := kind), env, w, refresh)
  {
    hide ExecuteSpec, ParseToken, GenerateOptions, RefreshOptions;
    var b := a.(kind := kind);
    OptionsIgnoreKind(a, refresh, kind);
    if refresh.None? && a.serviceConfig.credentials.apiKey.Some? && a.serviceConfig.credentials.secretKey.Some? {
      SendIgnoresKind(a, env, w, GenerateOptions(a), None, kind);
    } else if refresh.Some? && refresh.value.RefreshValue().Some? {
      SendIgnoresKind(a, env, w, RefreshOptions(a, refresh.value), refresh, kind);
    }
  }

  lemma OptionsIgnoreKind(a: Authority, refresh: Option<TokenState>, kind: StoreKind)
    ensures refresh.Some? && refresh.value.RefreshValue().Some? ==>
      RefreshOptions(a, refresh.value) == RefreshOptions(a.(kind := kind), refresh.value)
    ensures a.serviceConfig.credentials.apiKey.Some? && a.serviceConfig.credentials.secretKey.Some? ==>
      GenerateOptions(a) == GenerateOptions(a.(kind := kind))
  {
  }

  lemma ParseIgnoresKind(a: Authority, body: map<string, PyValue>, previous: Option<TokenState>, now: real,
      kind: StoreKind)
    requires HasAccessToken(a, body)
    ensures ParseToken(a, body, previous, now) == ParseToken(a.(kind := kind), body, previous, now)
  {
    hide JwtExpiry;
  }

  lemma SendIgnoresKind(a: Authority, env: Env, w: World, options: RequestOptions, previous: Option<TokenState>,
      kind: StoreKind)
    ensures SendTokenRequest(a, env, w, options, previous)
        == SendTokenRequest(a.(kind := kind), env, w, options, previous)
  {
    hide ExecuteSpec, ParseToken;
    var (w', r) := ExecuteSpec(a.platform, a.config, env, w, options);
    if r.Ok? && r.value.content.Json? && r.value.content.value.PyDict?
        && HasAccessToken(a, r.value.content.value.fields) {
      ParseIgnoresKind(a, r.value.content.value.fields, previous, env.clock(w'.clockReads), kind);
    }
  }

  lemma SafeGetRefines(a: Authority, s: AuthState, kind: StoreKind, t: AuthState)
    requires SameView(a, s, kind, t)
    ensures var (s', cached) := SafeGetSpec(a, s); var (t', cached') := SafeGetSpec(a.(kind := kind), t);
      cached == cached' && SameView(a, s', kind, t')
  {
    hide Load;
    EmptyIsMissing(a);
    EmptyIsMissing(a.(kind := kind));
  }

  lemma RefreshOrAcquireRefines(a: Authority, env: Env, s: AuthState, kind: StoreKind, t: AuthState,
      cached: Option<TokenState>, now: real)
    requires a.platform.Valid() && SameView(a, s, kind, t)
    ensures
      var (s', r) := RefreshOrAcquireSpec(a, env, s, cached, now);
      var (t', r') := RefreshOrAcquireSpec(a.(kind := kind), env, t, cached, now);
      r == r' && SameView(a, s', kind, t')
  {
    var b := a.(kind := kind);
    hide RequestTokenSpec, Load, Save;
    SameResults(a, env, s, kind, t, cached, now);
    EntryFollowsResult(a, env, s, cached, now);
    EntryFollowsResult(b, env, t, cached, now);
    hide RefreshOrAcquireSpec;
  }

  lemma SameResults(a: Authority, env: Env, s: AuthState, kind: StoreKind, t: AuthState, cached: Option<TokenState>,
      now: real)
    requires s.w == t.w
    ensures
      var (s', r) := RefreshOrAcquireSpec(a, env, s, cached, now);
      var (t', r') := RefreshOrAcquireSpec(a.(kind := kind), env, t, cached, now);
      r == r' && s'.w == t'.w
  {
    hide RequestTokenSpec, Load, Save;
    RequestTokenIgnoresKind(a, env, s.w, cached, kind);
    RequestTokenIgnoresKind(a, env, s.w, None, kind);
    RequestTokenIgnoresKind(a, env, LogEvent(RequestTokenSpec(a, env, s.w, cached).0, TokenRefreshFailed), None, kind);
  }

  lemma GetTokenRefines(a: Authority, env: Env, s: AuthState, kind: StoreKind, t: AuthState)
    requires a.platform.Valid() && SameView(a, s, kind, t)
    ensures
      var (s', r) := GetTokenSpec(a, env, s);
      var (t', r') := GetTokenSpec(a.(kind := kind), env, t);
      r == r' && SameView(a, s', kind, t')
  {
    var b := a.(kind := kind);
    SafeGetRefines(a, Tick(s), kind, Tick(t));
    var (s1, cached) := SafeGetSpec(a, Tick(s));
    var (t1, _) := SafeGetSpec(b, Tick(t));
    SafeGetRefines(a, Tick(s1), kind, Tick(t1));
    var (s2, cached2) := SafeGetSpec(a, Tick(s1));
    var (t2, _) := SafeGetSpec(b, Tick(t1));
    RefreshOrAcquireRefines(a, env, s2, kind, t2, cached2, env.clock(s1.w.clockReads));
    hide RefreshOrAcquireSpec, Load, SafeGetSpec;
  }

  lemma RecoverRefines(a: Authority, env: Env, s: AuthState, kind: StoreKind, t: AuthState, rejected: string)
    requires a.platform.Valid() && SameView(a, s, kind, t)
    ensures
      var (s', r) := RecoverSpec(a, env, s, rejected);
      var (t', r') := RecoverSpec(a.(kind := kind), env, t, rejected);
      r == r' && SameView(a, s', kind, t')
  {
    SafeGetRefines(a, s, kind, t);
    var (s1, cached) := SafeGetSpec(a, s);
    var (t1, _) := SafeGetSpec(a.(kind := kind), t);
    RefreshOrAcquireRefines(a, env, Tick(s1), kind, Tick(t1), cached, env.clock(s1.w.clockReads));
    hide RefreshOrAcquireSpec, Load, SafeGetSpec;
  }
}

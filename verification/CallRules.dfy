/** One authorised call of src/jibit/auth/authenticated.py, and its audit in src/jibit/services/base.py, in terms of
    what goes over the wire and what the provider answers last. */
module CallRules {
  import opened PyValues
  import opened Retry
  import opened Config
  import opened Engine
  import opened Runs
  import opened Tokens
  import opened Stores
  import opened Provider
  import opened TokenLifecycle
  import opened TokenRules
  import opened Authenticated
  import opened Audit

  // ----- Authorised requests on the wire -----

  /** The caller's request with the token's type and access token in its Authorization header. */
  function WithToken(options: RequestOptions, t: TokenState): RequestOptions {
    options.(headers := options.headers["Authorization" := t.tokenType + " " + t.access])
  }

  /** The request of a run that starts in this world is the caller's under this token. */
  ghost predicate Submits(a: Authority, env: Env, w: World, options: RequestOptions, t: TokenState,
      q: TransportRequest) {
    Sends(a.platform, a.config, env, w, WithToken(options, t), q)
  }

  lemma SentWithToken(a: Authority, env: Env, s: AuthState, options: RequestOptions, t: TokenState)
    requires a.config.Valid()
    ensures
      var (s', _) := SendUnder(a, env, s, options, t);
      && s.w.sent <= s'.w.sent && s'.raw == s.raw
      && forall i :: |s.w.sent| <= i < |s'.w.sent| ==> Submits(a, env, s.w, options, t, s'.w.sent[i])
  {
    assert Authorize(options, t) == WithToken(options, t);
    RequestsOnTheWire(a.platform, a.config, env, s.w, WithToken(options, t));
    hide ExecuteSpec, WithToken, Sends;
  }

  /** A call of the engine by its answers: without a 401 the first run is the call; after a 401 an operation that
      may not be repeated empties the store, and any other recovers a token and sends once more, a second 401
      emptying the store. */
  lemma CallByAnswers(a: Authority, env: Env, s: AuthState, options: RequestOptions)
    requires a.config.Valid() && a.platform.validEndpoint(options.path) && GetTokenSpec(a, env, s).1.Ok?
    ensures
      var (s', r) := AuthorizedSpec(a, env, s, options);
      var (s1, got) := GetTokenSpec(a, env, s);
      var (s2, first) := SendUnder(a, env, s1, options, got.value);
      var (s3, recovered) := RecoverSpec(a, env, s2, got.value.access);
      && |s2.w.sent| > |s1.w.sent|
      && var o := env.outcomes(|s2.w.sent| - 1);
         if !(o.Response? && o.status == 401) then s' == s2 && r == first
         else if !MayRepeat(options) then s' == s2.(raw := Empty) && r == first
         else if recovered.Raised? then s' == s3 && r == Raised(recovered.error)
         else
           var (s4, second) := SendUnder(a, env, s3, options, recovered.value);
           && |s4.w.sent| > |s3.w.sent| && r == second
           && var o2 := env.outcomes(|s4.w.sent| - 1);
              s' == if o2.Response? && o2.status == 401 then s4.(raw := Empty) else s4
  {
    hide GetTokenSpec, RecoverSpec;
    var (s1, got) := GetTokenSpec(a, env, s);
    var (s2, _) := SendUnder(a, env, s1, options, got.value);
    SendAnswered(a, env, s1, options, got.value);
    var (s3, recovered) := RecoverSpec(a, env, s2, got.value.access);
    if recovered.Ok? {
      SendAnswered(a, env, s3, options, recovered.value);
    }
    hide SendUnder;
  }

  lemma SamePath(options: RequestOptions, t: TokenState)
    ensures Authorize(options, t).path == options.path
  {
  }

  /** The run of one submission fails authentication exactly on a 401. */
  lemma SendAnswered(a: Authority, env: Env, s: AuthState, options: RequestOptions, t: TokenState)
    requires a.config.Valid() && a.platform.validEndpoint(options.path)
    ensures
      var (s', r) := SendUnder(a, env, s, options, t);
      && |s'.w.sent| > |s.w.sent|
      && var o := env.outcomes(|s'.w.sent| - 1);
         AuthenticationFailed(r) <==> o.Response? && o.status == 401
  {
    var authorized := Authorize(options, t);
    hide ExecuteSpec, IsCorrelationId, Authorize, MayRepeat, Passing;
    assert authorized.path == options.path by { SamePath(options, t); }
    RunByOutcomes(a.platform, a.config, env, s.w, authorized);
    ResultByOutcome(a.platform, a.config, env, s.w, authorized);
  }

  /** Everything a call sends with an Authorization header is the caller's request under the token it got first or,
      behind the recovery, under the token it recovered. */
  lemma SubmissionsOnTheWire(a: Authority, env: Env, s: AuthState, options: RequestOptions, i: nat)
    requires a.config.Valid()
    requires var s' := AuthorizedSpec(a, env, s, options).0; |s.w.sent| <= i < |s'.w.sent| && IsAuthorized(s'.w.sent[i])
    ensures
      var s' := AuthorizedSpec(a, env, s, options).0;
      var (s1, got) := GetTokenSpec(a, env, s);
      && got.Ok?
      && var (s2, _) := SendUnder(a, env, s1, options, got.value);
         var (s3, recovered) := RecoverSpec(a, env, s2, got.value.access);
         if i < |s2.w.sent| then Submits(a, env, s1.w, options, got.value, s'.w.sent[i])
         else recovered.Ok? && Submits(a, env, s3.w, options, recovered.value, s'.w.sent[i])
  {
    hide GetTokenSpec, RecoverSpec, SendUnder, OnWire, IsCorrelationId;
    var (s1, got) := GetTokenSpec(a, env, s);
    GetTokenTraffic(a, env, s);
    if got.Ok? {
      var (s2, _) := SendUnder(a, env, s1, options, got.value);
      SentWithToken(a, env, s1, options, got.value);
      RecoverTraffic(a, env, s2, got.value.access);
      var (s3, recovered) := RecoverSpec(a, env, s2, got.value.access);
      if recovered.Ok? {
        SentWithToken(a, env, s3, options, recovered.value);
      }
    }
  }

  /** An operation that may not be repeated is never submitted twice: of two different requests that a call sends, at
      most one carries an Authorization header. */
  lemma NeverSubmittedTwice(a: Authority, env: Env, s: AuthState, options: RequestOptions, i: nat, j: nat)
    requires a.config.Valid() && !MayRepeat(options)
    requires var s' := AuthorizedSpec(a, env, s, options).0; |s.w.sent| <= i < j < |s'.w.sent|
    ensures
      var s' := AuthorizedSpec(a, env, s, options).0;
      !("Authorization" in s'.w.sent[i].headers && "Authorization" in s'.w.sent[j].headers)
  {
    hide GetTokenSpec, RecoverSpec, ExecuteSpec;
    var (s1, got) := GetTokenSpec(a, env, s);
    GetTokenTraffic(a, env, s);
    assert !CanReplay(options) && !Repeatable(options.safety, options.HasKey());
    if got.Ok? {
      UnrepeatableSentOnce(a.platform, a.config, env, s1.w, Authorize(options, got.value));
      SentWithToken(a, env, s1, options, got.value);
    }
    hide OnWire, UrlIs;
  }

  // ----- The audit in terms of the last answer -----

  /** The answer to a token request is a dictionary with an access token that is a text and not empty. */
  predicate GivesToken(a: Authority, content: Content) {
    && content.Json? && content.value.PyDict? && a.spec.accessField in content.value.fields
    && content.value.fields[a.spec.accessField].PyStr? && content.value.fields[a.spec.accessField].s != ""
  }

  /** After this answer to this request it is open whether the provider acted on it. */
  predicate LeavesOpen(a: Authority, q: TransportRequest, o: Outcome) {
    || o.TimedOut? || o.NetworkFailed?
    || o.status >= 500
    || (!(200 <= o.status < 300) && o.status !in {400, 401, 402, 403, 404, 409, 422, 429})
    || (200 <= o.status < 300 && !IsAuthorized(q) && !GivesToken(a, o.content))
  }

  /** Of what was sent since `w0`, the last is open. */
  predicate EndsOpen(a: Authority, env: Env, w0: World, w: World) {
    |w.sent| > |w0.sent| && LeavesOpen(a, w.sent[|w.sent| - 1], env.outcomes(|w.sent| - 1))
  }

  predicate IsOpen(e: JibitError) {
    e.kind == Timeout || e.kind == Network || e.kind == Server || e.kind == BadResponse
  }

  /** A request raises an open error exactly if it ends open, or raises before sending anything and then no open one. */
  lemma RunTells(a: Authority, env: Env, w: World, options: RequestOptions)
    requires a.config.Valid()
    ensures
      var (w', r) := ExecuteSpec(a.platform, a.config, env, w, options);
      && |w'.sent| >= |w.sent|
      && (|w'.sent| == |w.sent| ==> r.Raised? && r.error.kind == Validation)
      && (|w'.sent| > |w.sent| ==>
            var o := env.outcomes(|w'.sent| - 1);
            && (r.Ok? ==> o.Response? && 200 <= o.status < 300 && r.value.content == o.content)
            && (r.Raised? ==> !(o.Response? && 200 <= o.status < 300))
            && (r.Raised? ==> (IsOpen(r.error) <==> LeavesOpen(a, w'.sent[|w'.sent| - 1], o)))
            && (r.Raised? && (r.error.kind == Authentication || r.error.kind == Validation) ==>
                  o.Response? && o.status in {400, 401, 422}))
  {
    if a.platform.validEndpoint(options.path) {
      RunByOutcomes(a.platform, a.config, env, w, options);
      ResultByOutcome(a.platform, a.config, env, w, options);
    } else {
      RefusedEndpoint(a.platform, a.config, env, w, options);
    }
    hide ExecuteSpec, IsCorrelationId, GivesToken, IsAuthorized, MayRepeat, Passing;
  }

  /** The same of a token request; and one that yields a token or is rejected leaves nothing open. */
  ghost predicate TellsToken(a: Authority, env: Env, w: World, w': World, r: Result<TokenState, JibitError>) {
    && |w'.sent| >= |w.sent|
    && (|w'.sent| == |w.sent| ==> r.Raised? && !IsOpen(r.error))
    && (r.Raised? && |w'.sent| > |w.sent| ==> (IsOpen(r.error) <==> EndsOpen(a, env, w, w')))
    && (r.Ok? ==> !EndsOpen(a, env, w, w'))
    && (r.Raised? && RefreshRejected(r.error) ==> !EndsOpen(a, env, w, w'))
  }

  lemma TokenRequestTells(a: Authority, env: Env, w: World, refresh: Option<TokenState>)
    requires a.config.Valid()
    ensures var (w', r) := RequestTokenSpec(a, env, w, refresh); TellsToken(a, env, w, w', r)
  {
    hide SendTokenRequest;
    if refresh.None? {
      if a.serviceConfig.credentials.apiKey.Some? && a.serviceConfig.credentials.secretKey.Some? {
        SentRequestTells(a, env, w, GenerateOptions(a), None);
      }
    } else if refresh.value.RefreshValue().Some? {
      SentRequestTells(a, env, w, RefreshOptions(a, refresh.value), refresh);
    }
  }

  /** A 2xx to a token request leaves it open exactly if it gives no token. */
  lemma OpenAfterSuccess(a: Authority, q: TransportRequest, o: Outcome)
    requires o.Response? && 200 <= o.status < 300 && !IsAuthorized(q)
    ensures LeavesOpen(a, q, o) <==> !GivesToken(a, o.content)
  {
  }

  /** Neither a 400, a 401 nor a 422 leaves anything open. */
  lemma ClosedByRejection(a: Authority, q: TransportRequest, o: Outcome)
    requires o.Response? && o.status in {400, 401, 422}
    ensures !LeavesOpen(a, q, o)
  {
  }

  /** What comes of the answer to a token request. */
  lemma AnswerOf(a: Authority, env: Env, w: World, options: RequestOptions, previous: Option<TokenState>)
    ensures
      var (w1, r1) := ExecuteSpec(a.platform, a.config, env, w, options);
      var (w', r) := SendTokenRequest(a, env, w, options, previous);
      && w'.sent == w1.sent
      && (r1.Raised? ==> r == Raised(r1.error))
      && (r1.Ok? ==> if GivesToken(a, r1.value.content) then r.Ok? else r.Raised? && r.error.kind == BadResponse)
  {
    hide ExecuteSpec, ParseToken;
    var r1 := ExecuteSpec(a.platform, a.config, env, w, options).1;
    if r1.Ok? && r1.value.content.Json? && r1.value.content.value.PyDict? {
      TokenGiven(a, r1.value.content);
    }
    hide HasAccessToken;
  }

  lemma TokenGiven(a: Authority, content: Content)
    requires content.Json? && content.value.PyDict?
    ensures GivesToken(a, content) <==> HasAccessToken(a, content.value.fields)
  {
  }

  lemma LastIsPlain(a: Authority, env: Env, w: World, options: RequestOptions)
    requires a.config.Valid() && options.headers == map[] && options.idempotencyKey.None?
    ensures
      var w1 := ExecuteSpec(a.platform, a.config, env, w, options).0;
      |w1.sent| > |w.sent| ==> !IsAuthorized(w1.sent[|w1.sent| - 1])
  {
    PlainTraffic(a, env, w, options);
    hide ExecuteSpec;
  }

  lemma TellsWhen(a: Authority, env: Env, w: World, w': World, r: Result<TokenState, JibitError>)
    requires |w'.sent| >= |w.sent|
    requires |w'.sent| == |w.sent| ==> r.Raised? && !IsOpen(r.error)
    requires |w'.sent| > |w.sent| ==>
      var open := LeavesOpen(a, w'.sent[|w'.sent| - 1], env.outcomes(|w'.sent| - 1));
      if r.Ok? then !open else (IsOpen(r.error) <==> open) && (RefreshRejected(r.error) ==> !open)
    ensures TellsToken(a, env, w, w', r)
  {
    hide LeavesOpen;
  }

  lemma SentRequestTells(a: Authority, env: Env, w: World, options: RequestOptions, previous: Option<TokenState>)
    requires a.config.Valid() && options.headers == map[] && options.idempotencyKey.None?
    ensures var (w', r) := SendTokenRequest(a, env, w, options, previous); TellsToken(a, env, w, w', r)
  {
    RunTells(a, env, w, options);
    LastIsPlain(a, env, w, options);
    AnswerOf(a, env, w, options, previous);
    var (w1, r1) := ExecuteSpec(a.platform, a.config, env, w, options);
    var (w', r) := SendTokenRequest(a, env, w, options, previous);
    hide ExecuteSpec, SendTokenRequest, IsAuthorized, GivesToken, LeavesOpen, TellsToken;
    if |w1.sent| > |w.sent| {
      var q, o := w1.sent[|w1.sent| - 1], env.outcomes(|w1.sent| - 1);
      if r1.Ok? {
        OpenAfterSuccess(a, q, o);
      } else if o.Response? && o.status in {400, 401, 422} {
        ClosedByRejection(a, q, o);
      }
    }
    TellsWhen(a, env, w, w', r);
  }

  /** Since `w0` nothing is left open. */
  predicate Closed(a: Authority, env: Env, w0: World, w: World) {
    |w0.sent| <= |w.sent| && !EndsOpen(a, env, w0, w)
  }

  /** Since `w0` the calls ended with this error, open exactly if they end open. */
  predicate Tells(a: Authority, env: Env, w0: World, w: World, e: JibitError) {
    |w0.sent| <= |w.sent| && (IsOpen(e) <==> EndsOpen(a, env, w0, w))
  }

  lemma TokenRequestAfter(a: Authority, env: Env, w0: World, w: World, refresh: Option<TokenState>)
    requires a.config.Valid() && Closed(a, env, w0, w)
    ensures
      var (w', r) := RequestTokenSpec(a, env, w, refresh);
      && (r.Ok? ==> Closed(a, env, w0, w'))
      && (r.Raised? ==> Tells(a, env, w0, w', r.error))
      && (r.Raised? && RefreshRejected(r.error) ==> Closed(a, env, w0, w'))
  {
    TokenRequestTells(a, env, w, refresh);
    ObtainingSends(a, env, w, refresh);
    hide RequestTokenSpec, LeavesOpen;
  }

  lemma AcquiringTells(a: Authority, env: Env, w0: World, s: AuthState)
    requires a.config.Valid() && Closed(a, env, w0, s.w)
    ensures
      var (s', r) := AcquireSpec(a, env, s);
      if r.Ok? then Closed(a, env, w0, s'.w) else Tells(a, env, w0, s'.w, r.error)
  {
    TokenRequestAfter(a, env, w0, s.w, None);
    hide RequestTokenSpec, EndsOpen, Save;
    var (w, r) := RequestTokenSpec(a, env, s.w, None);
    OnlySentMatters(a, env, w0, w, LogEvent(w, TokenAcquired));
  }

  lemma ObtainingTells(a: Authority, env: Env, w0: World, s: AuthState, cached: Option<TokenState>, now: real)
    requires a.config.Valid() && Closed(a, env, w0, s.w)
    ensures
      var (s', r) := RefreshOrAcquireSpec(a, env, s, cached, now);
      if r.Ok? then Closed(a, env, w0, s'.w) else Tells(a, env, w0, s'.w, r.error)
  {
    TokenRequestAfter(a, env, w0, s.w, cached);
    hide RequestTokenSpec, EndsOpen, Save, AcquireSpec, RefreshRejected;
    AcquiringTells(a, env, w0, s);
    var (w1, refreshed) := RequestTokenSpec(a, env, s.w, cached);
    OnlySentMatters(a, env, w0, w1, LogEvent(w1, TokenRefreshed));
    OnlySentMatters(a, env, w0, w1, LogEvent(w1, TokenRefreshFailed));
    if refreshed.Raised? && RefreshRejected(refreshed.error) {
      AcquiringTells(a, env, w0, s.(w := LogEvent(w1, TokenRefreshFailed)));
    }
  }

  /** Only what was sent matters. */
  lemma OnlySentMatters(a: Authority, env: Env, w0: World, w: World, w': World)
    requires w'.sent == w.sent
    ensures EndsOpen(a, env, w0, w') == EndsOpen(a, env, w0, w)
  {
    hide LeavesOpen;
  }

  lemma GetTells(a: Authority, env: Env, w0: World, s: AuthState)
    requires a.config.Valid() && Closed(a, env, w0, s.w)
    ensures
      var (s', r) := GetTokenSpec(a, env, s);
      if r.Ok? then Closed(a, env, w0, s'.w) else Tells(a, env, w0, s'.w, r.error)
  {
    hide RefreshOrAcquireSpec, EndsOpen, Load;
    var (s1, _) := SafeGetSpec(a, Tick(s));
    var (s2, cached) := SafeGetSpec(a, Tick(s1));
    OnlySentMatters(a, env, w0, s.w, s1.w);
    OnlySentMatters(a, env, w0, s.w, s2.w);
    ObtainingTells(a, env, w0, s2, cached, env.clock(s1.w.clockReads));
  }

  lemma RecoverTells(a: Authority, env: Env, w0: World, s: AuthState, rejected: string)
    requires a.config.Valid() && Closed(a, env, w0, s.w)
    ensures
      var (s', r) := RecoverSpec(a, env, s, rejected);
      if r.Ok? then Closed(a, env, w0, s'.w) else Tells(a, env, w0, s'.w, r.error)
  {
    hide RefreshOrAcquireSpec, EndsOpen, Load;
    var (s1, cached) := SafeGetSpec(a, s);
    OnlySentMatters(a, env, w0, s.w, Tick(s1).w);
    ObtainingTells(a, env, w0, Tick(s1), cached, env.clock(s1.w.clockReads));
  }

  lemma SendTells(a: Authority, env: Env, w0: World, s: AuthState, options: RequestOptions, t: TokenState)
    requires a.config.Valid() && Closed(a, env, w0, s.w)
    ensures
      var (s', r) := SendUnder(a, env, s, options, t);
      && (r.Raised? ==> Tells(a, env, w0, s'.w, r.error))
      && (AuthenticationFailed(r) ==> Closed(a, env, w0, s'.w))
  {
    RunTells(a, env, s.w, Authorize(options, t));
    hide ExecuteSpec, LeavesOpen, Authorize;
  }

  /** An authorised call raises an open error exactly if the last of what it sent is left open. */
  lemma CallTells(a: Authority, env: Env, s: AuthState, options: RequestOptions)
    requires a.config.Valid()
    ensures
      var (s', r) := AuthorizedSpec(a, env, s, options);
      r.Raised? ==> Tells(a, env, s.w, s'.w, r.error)
  {
    hide GetTokenSpec, RecoverSpec, SendUnder, EndsOpen;
    assert Closed(a, env, s.w, s.w) by { NothingIsOpen(a, env, s.w); }
    var (s1, got) := GetTokenSpec(a, env, s);
    GetTells(a, env, s.w, s);
    if got.Ok? {
      SendTells(a, env, s.w, s1, options, got.value);
      var (s2, first) := SendUnder(a, env, s1, options, got.value);
      if AuthenticationFailed(first) && CanReplay(options) {
        RecoverTells(a, env, s.w, s2, got.value.access);
        var (s3, recovered) := RecoverSpec(a, env, s2, got.value.access);
        if recovered.Ok? {
          SendTells(a, env, s.w, s3, options, recovered.value);
        }
      }
    }
  }

  lemma NothingIsOpen(a: Authority, env: Env, w: World)
    ensures Closed(a, env, w, w)
  {
  }

  /** The one event of an audited call: its service and operation are those of the request; it says "succeeded"
      exactly if a response is returned, "unknown" exactly if the last of what the call sent is left open, and
      "failed" otherwise. */
  lemma AuditByLastAnswer(a: Authority, env: Env, raises: nat -> bool, s: AuthState, offered: seq<AuditEvent>,
      options: RequestOptions)
    requires a.config.Valid()
    ensures
      var (s', offered', r) := AuditedSpec(a, env, raises, s, offered, options);
      && |offered'| == |offered| + 1 && offered'[..|offered|] == offered
      && var e := offered'[|offered|];
         && e.service == options.service && e.operation == options.operation
         && (e.outcome == SucceededOutcome <==> r.Ok?)
         && (e.outcome == UnknownOutcome <==> r.Raised? && EndsOpen(a, env, s.w, s'.w))
         && (e.outcome == FailedOutcome <==> r.Raised? && !EndsOpen(a, env, s.w, s'.w))
  {
    CallTells(a, env, s, options);
    var (s1, r) := AuthorizedSpec(a, env, s, options);
    OnlySentMatters(a, env, s.w, s1.w, LogEvent(s1.w, AuditEmitFailed));
    hide AuthorizedSpec, EndsOpen;
  }

  /** What the event of a call reports: the response's status and identifier, or the error's kind, status and
      identifier, with a stand-in for a missing or empty one. */
  lemma AuditReports(options: RequestOptions, r: Result<RawResponse, JibitError>)
    ensures
      var e := EventFor(options, r);
      && (r.Ok? ==> e.status == Some(r.value.status) && e.errorKind.None? && e.correlationId == r.value.correlationId)
      && (r.Raised? ==>
            && e.status == r.error.status && e.errorKind == Some(r.error.kind)
            && (forall cid :: r.error.correlationId == Some(cid) && cid != "" ==> e.correlationId == cid)
            && (r.error.correlationId.None? || r.error.correlationId == Some("") ==> e.correlationId == "unavailable"))
  {
  }
}

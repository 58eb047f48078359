# Verification of the Jibit SDK core

The Jibit SDK talks to payment and identity services: it obtains and refreshes access tokens, sends requests
with conservative retries, audits every financial call, parses callbacks and redacts what it logs. This project
models that core in Dafny 4.11 and proves what it promises for every input, every run and every interleaving.

## How the model is organised

- `PyValues.dfy`, `Text.dfy`, `Config.dfy`: dynamic values, string splitting and joining, configuration.
- `Retry.dfy`, `Engine.dfy`: the retry policy and the request loop. The transport, the random source, the identifier
  source and the clock are arbitrary functions (`Env`), so every statement covers every sequence of outcomes. The loop
  is proved to perform, in one step, a run whose length is the position of the first final outcome.
- `Runs.dfy`: runs of the engine in terms of what goes over the wire and what the provider answers.
- `Base64Url.dfy`, `Tokens.dfy`, `Stores.dfy`: token state, its serialisation, JWT expiry, and the three stores.
- `Provider.dfy`, `TokenLifecycle.dfy`: one authenticator, call by call, and what its calls promise.
- `TokenRules.dfy`: the same calls in terms of times, texts and requests on the wire.
- `Authenticated.dfy`, `Audit.dfy`: authorised requests with 401 recovery, and the audited executor around them.
- `CallRules.dfy`: authorised requests on the wire, and the audit in terms of the provider's last answer.
- `Locks.dfy`, `TokenProtocol.dfy`, `ProtocolInvariant.dfy`, `ProtocolTheorems.dfy`: any number of threads in the
  token calls, as a step relation in which every clock reading, store operation, lock operation and provider reply
  is a step of its own, and any store operation may raise, with or without having taken effect; its invariant, and
  bounds over all runs.
- `ProtocolTiming.dfy`, `ProtocolDeletions.dfy`: when, in those runs, the tokens handed out were good, and how often an
  entry can be removed.
- `SequentialRuns.dfy`, `Sessions.dfy`: the two models of the token calls agree. Whatever a session of calls and
  authorised requests does is a run of one thread of the step relation, so the bound over all runs becomes a bound on
  the session's own invalidations and rejected tokens.
- `Masking.dfy`, `Scanning.dfy`, `Leftovers.dfy`, `FusedPasses.dfy`, `CardRemainders.dfy`: text masking as four scanners,
  the last three of them refined to one scan, and exactly what is left.
- `MaskRules.dfy`: the patterns and their masks, character by character.
- `Redaction.dfy`, `KeyNames.dfy`: recursive redaction, and field names against their aliases.
- `CacheIdentity.dfy`, `Webhooks.dfy`: the token cache identity, and callback deduplication.

Objects that the SDK updates in place are classes. Each of their methods is proved equal to a function of the old state
(`...Spec`); lemmas about those functions carry the results.

## Assumptions

- Times, delays and draws are reals; draws lie between 0 and 1 where a lemma says so. The shared clock of the token
  protocol never goes back.
- `Platform` holds what the SDK uses and does not implement: `str`, JSON, dictionary order, `float` on text,
  `str.upper` and the endpoint test based on `urlsplit`. Assumed of it: `str` is the identity on text and never empty
  on a true value, and a dumped dictionary loads back. JSON text is a type of its own, so that a dump can carry any
  number; `PlatformsExist`, `AuthoritiesExist` and `ClassesExist` show that the assumptions can be met together.
- In the token protocol an issued access token is a value that was neither issued nor presented before.
- The character classes of the regular-expression engine are parameters that contain the ASCII digits and exclude the
  characters the masks are made of.

## Where the code does not do what one might expect

- An omitted refresh token is kept, but when a refresh lifetime is given its expiry is counted anew: it moves later
  exactly when that lifetime, counted from now, ends after the old expiry (`OmittedRefreshKeepsExpiryIff`,
  `OmittedRefreshOutlivesItself`).
- A "failed" audit outcome can hide an earlier attempt that timed out, unless the operation is attempted only once
  (`FailedIsTruthfulIff`).
- `docs/logging.md:55-59` says malformed responses are audited as unknown. The response model is validated after the
  audit event, so this holds exactly of the malformed responses that the executor itself raised
  (`MalformedAuditIff`, `GarbledSuccessIsAuditedAsSucceeded`): over all answers, for no request that can be sent
  (`MalformedIsUnknownIff`).
- A NUL character inside a scope makes two scope lists share a cache identity; identities are equal exactly when the
  components break into the same pieces (`NulInScopeCollides`, `IdentityEqualIff`).
- A callback can go unprocessed although every delivery of it is trusted, exactly when the first of its claims that the
  store does not refuse outright records the key and then raises, or there is no such claim (`ProcessedIff`,
  `NeverProcessedIff`).
- A sensitive key written in capitals is not recognised, whatever the key; one whose first letter is a capital is
  (`OtpInCapitals`, `CapitalisingKey`).
- Redacted text can hold a card number: the four digits that stay readable of a masked number, with a separator and
  twelve digits behind them. It does exactly when, account numbers aside, the text has a separator and twelve digits
  behind something that is masked, all of them copied (`CardIsLeftIff`, `TwelveBehindRunKeepCard`), and never when no
  digit of the text is followed by one or two separators and another digit (`WithoutChainsNothingIsLeft`).
- A mobile number written with +98 behind a card number and a separator is left in full, because the card pattern takes
  the separator in and the plus then stands behind a digit (`MobileBehindCardIsLeft`). A mobile number that the scan comes
  to is masked exactly when nothing was masked right before it and no card number begins at it or at its first digit
  (`MobileIsMaskedIff`).

## Model

| member | source | states |
|---|---|---|
| `Retry.DecideExactly` | src/jibit/retry.py:55-66 | A retry is chosen exactly for an unused attempt of an operation that may be repeated after a transport failure or one of seven statuses, with the ending as its reason |
| `Retry.DelayExactly` | src/jibit/retry.py:63-66 | The delay is the base doubled for each attempt before and capped, raised by the drawn share of the jitter ratio and capped again; never below the capped base |
| `Retry.DelayBounded` | src/jibit/retry.py:63-66 | Every delay lies between zero and the maximum, and under the jittered uncapped base |
| `Retry.DelayNeverDecreases` | src/jibit/retry.py:63-66 | Whatever the two draws, the next delay is at least as long as the previous one |
| `Retry.TotalDelayBounds` | src/jibit/retry.py:63-66 | The delays of n retries add up to at most n maximal delays and at most the geometric sum of the jittered base |
| `Engine.RequestEngine.Execute` | src/jibit/engine.py:80-179 | The retry loop terminates and does exactly what the run up to the first final outcome does: sends, sleeps, events, identifiers and result |
| `Engine.AttemptDecides` | src/jibit/engine.py:115-128 | An attempt stops the run when it succeeds or the policy refuses, and otherwise moves to the next attempt with the scheduled delay and reason |
| `Engine.StopIsFirstFinal` | src/jibit/engine.py:100-179 | The number of sends is the position of the first outcome that is a success, not retryable, or at the attempt limit |
| `Engine.RunShape` | src/jibit/engine.py:80-179 | k identical requests, k - 1 sleeps, and a trace of one start, k - 1 numbered retries and one end; success exactly when the last outcome is 2xx |
| `Engine.UnrepeatableSentOnce` | src/jibit/engine.py:100-179 | An unsafe operation, or a protected one without a key, is sent exactly once whatever happens |
| `Engine.RetryableMeansExhausted` | src/jibit/engine.py:260-269 | The retryable flag means transient status and repeatable operation, and then every allowed attempt was made; transport failures never carry it |
| `Engine.ErrorKindOfRun` | src/jibit/engine.py:271-284 | Authentication errors are exactly 401 endings, and timeout, network and server errors exactly the uncertain endings |
| `Engine.TotalSleepBounded` | src/jibit/engine.py:122-128 | The sleeps of one run are bounded by the smaller of the flat and the geometric bound for the attempt limit |
| `Engine.SleepsNeverDecrease` | src/jibit/engine.py:122-128 | The sleeps of one run never get shorter and never exceed the maximum |
| `Runs.RequestsOnTheWire` | src/jibit/engine.py:80-114 | Every request of a run goes to the service's own or the default base URL, one slash and the path, with the caller's method, body and headers, and the three default headers where the caller set none |
| `Runs.RunByOutcomes` | src/jibit/engine.py:100-179 | All outcomes before the last are transport failures or one of seven statuses; the last is a 2xx, or none of these, or the last allowed, or may not be repeated |
| `Runs.ResultByOutcome` | src/jibit/engine.py:204-290 | The last outcome decides the response, or the kind, status, identifier and retryable flag of the error, status by status |
| `Runs.RefusedEndpoint` | src/jibit/engine.py:190-195 | A refused endpoint raises a validation error before anything is sent or logged |
| `Runs.TraceByOutcomes` | src/jibit/engine.py:91-179 | The trace names each retry by number, outcome and the delay slept, and ends with the status or the kind of error |
| `Runs.SleepsByDraws` | src/jibit/engine.py:172-176 | Each sleep is the delay formula of its attempt for the draw made then |
| `Runs.SleepBoundsInNumbers` | src/jibit/retry.py:63-66 | The sleeps of a run against the flat and the geometric bound, in numbers |
| `Authenticated.AuthorizedSleepBounded` | src/jibit/auth/authenticated.py:21-37 | One authorised call, token requests, recovery and replay included, sleeps at most six times the bound of one run |
| `Base64Url.DecodeOfEncode` | src/jibit/auth/tokens.py:85-86 | The lenient decoder inverts the URL-safe encoding of every byte string |
| `Base64Url.LenientDecoding` | src/jibit/auth/tokens.py:85-86 | The decoder skips foreign characters, reads the two standard letters as their URL-safe ones, and refuses a text that breaks off unpadded |
| `Base64Url.LetterByCodePoint` | src/jibit/auth/tokens.py:85-86 | The alphabet is that of section 5 of RFC 4648 |
| `Base64Url.RepadRestores` | src/jibit/auth/tokens.py:85-86 | Stripped padding is restored exactly, so the bytes come back from the unpadded text |
| `Tokens.JwtPayloadRecovered` | src/jibit/auth/tokens.py:79-90 | The expiry claim of any payload is read back unchanged from the middle part of a three-part token |
| `Tokens.JwtExpiryIff` | src/jibit/auth/tokens.py:79-90 | An expiry is read from exactly the tokens of three parts whose middle is ASCII text that decodes to a dictionary with a readable `exp` |
| `Tokens.OpaqueByDots` | src/jibit/auth/tokens.py:81-83 | A token without exactly two dots carries no expiry |
| `Tokens.CacheRoundTripIff` | src/jibit/auth/tokens.py:51-76 | Serialising and reading back is the identity exactly on canonical tokens |
| `Tokens.CacheDataReadableIff` | src/jibit/auth/tokens.py:62-76 | Cached data are readable exactly with a non-empty access token and scopes that are falsy or can be iterated |
| `Tokens.CacheDataRead` | src/jibit/auth/tokens.py:62-76 | A dictionary with the six documented names is read as the token it describes |
| `Tokens.BareCacheDataRead` | src/jibit/auth/tokens.py:62-76 | An access token alone is read as a bearer token without expiry and scopes |
| `Stores.LoadOfSaveIff` | src/jibit/auth/redis.py:41-55 | Each kind of store returns a canonical token as saved, and the serialising kinds no other |
| `Stores.LoadsExactly` | src/jibit/auth/django.py:40-47 | Which data each kind of store reads as nothing, as a token, or as an error |
| `Stores.InMemoryTokenStore.Set` | src/jibit/auth/store.py:36-39 | The map gains exactly the one entry |
| `Stores.InMemoryTokenStore.Get` | src/jibit/auth/store.py:31-34 | The entry of the key, or none |
| `Stores.InMemoryTokenStore.Delete` | src/jibit/auth/store.py:41-44 | Exactly the one entry goes, and an absent one is no failure |
| `Stores.DjangoCacheTokenStore.Get` | src/jibit/auth/django.py:40-47 | None reads as missing, a dictionary is validated, anything else is unreadable |
| `Stores.DjangoCacheTokenStore.Set` | src/jibit/auth/django.py:49-51 | The serialised token replaces the value under the prefixed name |
| `Stores.DjangoCacheTokenStore.Delete` | src/jibit/auth/django.py:53-55 | The value under the prefixed name goes |
| `Stores.RedisTokenStore.Get` | src/jibit/auth/redis.py:41-51 | Undecodable bytes, unparsable text and non-dictionaries are unreadable, a dictionary is validated |
| `Stores.RedisTokenStore.Set` | src/jibit/auth/redis.py:53-55 | The dumped token replaces the value under the prefixed name |
| `Stores.RedisTokenStore.Delete` | src/jibit/auth/redis.py:57-59 | The value under the prefixed name goes |
| `Stores.TokenStore.Set` | src/jibit/auth/store.py:17-18 | Whatever the store, the token is saved under its own key and no other key changes |
| `Stores.TokenStore.Delete` | src/jibit/auth/store.py:20-21 | Whatever the store, the key is emptied and no other key changes |
| `Stores.PrefixKeepsKeysApart` | src/jibit/auth/django.py:57-58 | One prefix maps distinct keys to distinct names |
| `Stores.PrefixesMeetIff` | src/jibit/auth/redis.py:61-62 | Two prefixes can meet on a name exactly when one of them with its colon starts the other |
| `Provider.ServiceAuthenticator.SafeGet` | src/jibit/auth/provider.py:232-237 | An unreadable entry is deleted and reads as absent |
| `Provider.ServiceAuthenticator.RequestToken` | src/jibit/auth/provider.py:125-152 | The refresh or generation call, with its local failures, its engine run and its parsing |
| `Provider.ServiceAuthenticator.RefreshOrAcquire` | src/jibit/auth/provider.py:93-123 | Refresh if the cached token allows it, credentials after a rejection or otherwise, and the result stored |
| `Provider.ServiceAuthenticator.GetToken` | src/jibit/auth/provider.py:59-74 | The valid cached token, or the second look and the refresh or acquisition; other keys untouched |
| `Provider.ServiceAuthenticator.RecoverFromUnauthorized` | src/jibit/auth/provider.py:76-87 | A valid replacement already stored, or a refresh or acquisition; other keys untouched |
| `Provider.ServiceAuthenticator.Invalidate` | src/jibit/auth/provider.py:89-91 | The entry is emptied and nothing else changes |
| `TokenLifecycle.ParsedTokensAreCanonical` | src/jibit/auth/provider.py:154-192 | Every token a response yields survives serialisation |
| `TokenLifecycle.JwtClaimDecidesExpiry` | src/jibit/auth/provider.py:162-170 | A claim the issuer encoded, as a number or as text that reads as one, becomes the expiry whatever the response fields say; otherwise they decide |
| `TokenLifecycle.OpaqueTokenLifetime` | src/jibit/auth/provider.py:163-170 | For a text that carries no expiry the response field, the documented and the configured lifetime decide in this order, each with its value; the token is valid when parsed |
| `TokenLifecycle.CarriedExpiryDecides` | src/jibit/auth/provider.py:162-170 | A token that carries an expiry has that one, whatever else is said |
| `TokenLifecycle.DotlessTokenLifetime` | src/jibit/auth/provider.py:162-170 | A token without exactly two dots lasts as the response and the lifetimes say |
| `TokenLifecycle.TokenRequestsCarryCredentials` | src/jibit/auth/provider.py:131-136 | A refresh presents the cached refresh token, with the access token where documented; a generation presents the key pair |
| `TokenLifecycle.RefreshRejectionNeverEscapes` | src/jibit/auth/provider.py:93-123 | An authentication or validation error always comes from the credential call |
| `TokenLifecycle.EntryFollowsResult` | src/jibit/auth/provider.py:93-123 | An error leaves the store entry as it was; a returned token is the new entry |
| `TokenLifecycle.LineageKeepsRefreshToken` | src/jibit/auth/provider.py:156-160 | Along any chain of refreshes the refresh token is the last one supplied, never lost |
| `TokenLifecycle.OmittedRefreshKeepsExpiryIff` | src/jibit/auth/provider.py:171-178 | An omitted refresh token keeps its expiry exactly when no refresh lifetime is given or the lifetime ends at the same instant, and gets a later one exactly when it ends later |
| `TokenLifecycle.OmittedRefreshOutlivesItself` | src/jibit/auth/provider.py:171-178 | With the payment gateway's lifetime an omitted refresh token gets a later expiry |
| `TokenLifecycle.GetTokenTraffic` | src/jibit/auth/provider.py:59-74 | At most two runs of token requests, none of them authorised |
| `TokenLifecycle.RecoverTraffic` | src/jibit/auth/provider.py:76-87 | The same for a recovery |
| `TokenLifecycle.GetTokenEntry` | src/jibit/auth/provider.py:59-74 | A returned token is the entry afterwards; an error leaves a readable entry alone |
| `TokenLifecycle.RecoverEntry` | src/jibit/auth/provider.py:76-87 | The same for a recovery |
| `TokenLifecycle.GetTokenRefines` | src/jibit/auth/provider.py:59-74 | The call behaves the same over every kind of store |
| `TokenLifecycle.RecoverRefines` | src/jibit/auth/provider.py:76-87 | The same for a recovery |
| `TokenRules.CachedTokenIsReturnedIff` | src/jibit/auth/provider.py:59-74 | A token is returned without a request exactly when the stored one has no expiry or one later than the first or second clock reading plus the leeway; it is that token |
| `TokenRules.CachedTokenIsReusedIff` | src/jibit/auth/provider.py:76-87 | The same for a recovery, which never returns the rejected token |
| `TokenRules.TokenRequestsOnTheWire` | src/jibit/auth/provider.py:125-152 | A refresh posts the refresh token to the refresh path, a generation the keys and scopes to the generation path, under the documented names and without authorisation |
| `TokenRules.FirstTokenRequest` | src/jibit/auth/provider.py:93-98 | A refresh is sent first exactly for a cached refresh token, not empty, whose expiry is later than now plus the leeway; otherwise a generation |
| `TokenRules.WithoutRefreshToken` | src/jibit/auth/provider.py:93-98 | Without a refresh token, or with one inside the leeway, only the credential call happens |
| `TokenRules.RefreshGivesWayIff` | src/jibit/auth/provider.py:97-106 | A refresh gives way to the credentials exactly when its last answer is a 400, 401 or 422 |
| `TokenRules.TokenRequestsAreRepeated` | src/jibit/auth/provider.py:137-146 | A token request that ends in a transport failure made every allowed attempt |
| `TokenRules.ParsedTokenParts` | src/jibit/auth/provider.py:154-192 | Access token, refresh token or the previous one, type or "Bearer", and scopes or the configured ones |
| `TokenRules.RefreshTokenLifetime` | src/jibit/auth/provider.py:171-178 | The refresh lifetime of the response, or the documented one, or the previous expiry of the same refresh token |
| `TokenRules.IntegerFieldIff` | src/jibit/auth/provider.py:194-197 | A lifetime field counts exactly if it holds a positive whole number, true counting as one |
| `TokenRules.DocumentedEndpoints` | src/jibit/auth/specs.py:30-115 | Paths, field names and lifetimes of every service |
| `Authenticated.AuthenticatedRequestEngine.Execute` | src/jibit/auth/authenticated.py:21-37 | Token, request, and after a 401 either invalidation or one recovery and one replay |
| `Authenticated.SafetyEncodingsAgree` | src/jibit/auth/authenticated.py:45-52 | The retry policy, the replay test and the retryable flag agree on which operations may be repeated |
| `Authenticated.SubmissionsBounded` | src/jibit/auth/authenticated.py:21-37 | At most one submission of an unrepeatable operation, at most twice the limit otherwise, at most six times the limit in all; each submission is what the caller asked |
| `Authenticated.SuccessKeepsUsedToken` | src/jibit/auth/authenticated.py:23-34 | After a success the store holds the token of the last Authorization header |
| `Authenticated.EntryAfterCall` | src/jibit/auth/authenticated.py:25-37 | The store entry after each ending: emptied by a final rejection, still the rejected token if recovery raises, otherwise the token used |
| `CallRules.SubmissionsOnTheWire` | src/jibit/auth/authenticated.py:21-43 | Every authorised request is the caller's, with the type and access token of the token got first or, behind the recovery, of the recovered one |
| `CallRules.CallByAnswers` | src/jibit/auth/authenticated.py:21-37 | Replay, invalidation and result of a call by whether its runs end in a 401 |
| `CallRules.NeverSubmittedTwice` | src/jibit/auth/authenticated.py:21-52 | Of two requests sent by a call that may not be repeated, at most one carries an Authorization header |
| `Authenticated.SessionRefines` | src/jibit/auth/django.py:23-58 | Over any session of calls, stores of different kinds with the same readable entry give the same replies and the same requests |
| `Audit.AuditedRequestExecutor.Execute` | src/jibit/services/base.py:50-80 | The call's own result, one event offered, and a log entry if the sink raised |
| `Audit.OneEventPerCall` | src/jibit/services/base.py:82-109 | Over any run each call offers exactly the event of its own result, whichever events the sink raises on |
| `CallRules.AuditByLastAnswer` | src/jibit/services/base.py:50-80 | "Succeeded" exactly for a response; "unknown" exactly if the last of what was sent met a transport failure, a 5xx, an unlisted status or, for a token request, a 2xx without a token; "failed" otherwise |
| `CallRules.AuditReports` | src/jibit/services/base.py:63-80 | The event's status, error kind and identifier, with a stand-in for a missing one |
| `Audit.SingleAttemptIsTruthful` | src/jibit/services/base.py:54-73 | For an operation attempted once, "failed" means no submission timed out, lost the network or met a server error |
| `Audit.RetriedTimeoutIsAuditedAsFailed` | src/jibit/services/base.py:54-73 | A retried timeout followed by a conflict is audited as failed |
| `Audit.FailedIsTruthfulIff` | src/jibit/services/base.py:54-73 | "Failed" can be relied on exactly for operations attempted once |
| `Audit.SucceededIsTruthful` | src/jibit/services/base.py:74-80 | "Succeeded" means the last request sent carried a token and was answered with a 2xx, which is the response returned |
| `Audit.TypedRequest` | src/jibit/services/base.py:140-154 | The audited call, and the response model on its result; what the sink was offered does not depend on the model |
| `Audit.MalformedAuditIff` | src/jibit/services/base.py:112-154 | Over any run, a malformed-response error is audited as unknown exactly when the executor raised it, and as a success when the response model did |
| `Audit.MalformedIsUnknownIff` | src/jibit/services/base.py:112-154 | Over all answers and stores, every malformed response is audited as unknown exactly for requests refused for their endpoint |
| `Audit.GarbledSuccessIsAuditedAsSucceeded` | src/jibit/services/base.py:122-137 | A 2xx that is not JSON is audited as a success while the caller gets a malformed-response error |
| `Webhooks.DeduplicationStore.Claim` | src/jibit/webhooks/base.py:26-30 | An atomic first claim that may raise before or after recording the key |
| `Webhooks.ParseCallback` | src/jibit/webhooks/base.py:48-121 | Validation, verification and claim in this order, with the rejection of each stage and the log events |
| `Webhooks.CallbackByItsParts` | src/jibit/webhooks/base.py:70-121 | Rejection, payload, verified and duplicate flag of one callback by its payload, verdict, key and claim |
| `Webhooks.ProcessedAtMostOnce` | src/jibit/webhooks/base.py:96-121 | Over any deliveries and store failures each key yields at most one non-duplicate result |
| `Webhooks.ProcessedIff` | src/jibit/webhooks/base.py:96-121 | Whatever the store does, a delivery is processed exactly when it is trusted, its key unclaimed before, its claim succeeds, and all earlier claims of the key raised before recording |
| `Webhooks.ProcessedIffFirst` | src/jibit/webhooks/base.py:96-121 | In particular, with a store that never raises, exactly the first trusted delivery of an unclaimed key is no duplicate |
| `Webhooks.NeverProcessedIff` | src/jibit/webhooks/base.py:96-121 | A key is processed by no delivery exactly when it was claimed before, or its first claim not refused outright raises after recording, or there is none |
| `Webhooks.OnlyTrustedCallbacksClaim` | src/jibit/webhooks/base.py:70-95 | A key becomes claimed only through a valid and verified delivery |
| `Webhooks.CommittedFailureIsNeverProcessed` | src/jibit/webhooks/base.py:108-120 | A claim that records its key and raises, at any delivery, leaves it and every later delivery of the key unprocessed |
| `Locks.ThreadLockProvider.LockFor` | src/jibit/auth/locks.py:28-29 | The key's lock is kept once made, a new key gets a new lock, and keys never share one |
| `ProtocolInvariant.InsideStepIsSound` | src/jibit/auth/provider.py:67-87 | Each step inside the lock keeps the key's slot sound and hands over what the next step relies on |
| `ProtocolInvariant.TablesKept` | src/jibit/auth/locks.py:25-31 | Every step keeps guard, lock dictionary and owners in agreement with the threads' positions |
| `ProtocolInvariant.InvKept` | src/jibit/auth/provider.py:59-123 | Every enabled step of any thread, the environment or the provider keeps the invariant |
| `ProtocolTheorems.IssuanceBound` | src/jibit/auth/provider.py:59-123 | Tokens stored under a key number at most one plus its deletions plus its distinct rejected or expiring access tokens |
| `ProtocolDeletions.DeletionsBounded` | src/jibit/auth/provider.py:89-91 | In any run an entry is removed at most once per invalidation and eviction and, if it was ever corrupted, twice per `get_token` and once per recovery |
| `ProtocolDeletions.IssuanceBoundOfLabels` | src/jibit/auth/provider.py:59-123 | The issuance bound in terms of what happened in the run: its invalidations, evictions and heals, and its rejected or expiring tokens |
| `ProtocolDeletions.OneCorruptionTwoDeletions` | src/jibit/auth/provider.py:232-237 | A run in which one corruption, read by two threads, costs two entries: corruptions cannot stand for heals in the bound |
| `ProtocolTheorems.NoStampede` | src/jibit/auth/provider.py:76-87 | Any number of threads cause one issuance, and one more after one rejected token |
| `ProtocolTheorems.IssuanceRate` | src/jibit/auth/provider.py:67-74 | Without deletions and rejections, successive issuances are at least a lifetime less the leeway apart |
| `ProtocolTheorems.IssuanceRateOfRun` | src/jibit/auth/provider.py:161-170 | n issuances need n - 1 times the lifetime less the leeway of elapsed time |
| `ProtocolTheorems.HandedTokensAreSound` | src/jibit/auth/provider.py:59-87 | Every token handed out was stored under its key, and a recovery never gets the rejected token back |
| `ProtocolTiming.HandedTokensWereGood` | src/jibit/auth/provider.py:59-87 | Every token handed out was outside the leeway, or parsed from its response, at a clock reading taken during the call that got it |
| `ProtocolTheorems.BindingsNeverChange` | src/jibit/auth/locks.py:28-29 | A key's lock binding never changes once made |
| `ProtocolTheorems.LockSafety` | src/jibit/auth/locks.py:25-31 | One thread inside a key's lock, the guard never held while waiting for a key lock, at most one key lock a thread, none left behind |
| `ProtocolTheorems.Progress` | src/jibit/auth/provider.py:67-87 | No deadlock: a thread in a call can step or waits for one that can |
| `ProtocolTheorems.CallsAreBounded` | src/jibit/auth/provider.py:59-123 | A call takes at most fourteen steps of its thread in any interleaving |
| `SequentialRuns.ObtainRuns` | src/jibit/auth/provider.py:93-123 | Refreshing or acquiring is a run of the protocol that ends with the same entry and result and stores the same token |
| `Sessions.ActionIsARun` | src/jibit/auth/provider.py:59-123 | Every call for a token, removal or submission is a run of one protocol thread that stores, rejects, removes and hands out what the action does |
| `Sessions.SessionIsItsActions` | src/jibit/auth/authenticated.py:21-37 | A session of calls and authorised requests does what its sequence of actions does |
| `Sessions.SessionIsARun` | src/jibit/auth/authenticated.py:21-37 | Any such session is one run, with the same tokens handed out and stored in the same order |
| `Sessions.SessionIsBounded` | src/jibit/auth/provider.py:59-123 | Whatever the store holds at first: the token held and those a session obtains number at most one, plus its own removals, plus the distinct ones it saw rejected or expiring |
| `Sessions.EmptyStoreSessionIsBounded` | src/jibit/auth/provider.py:59-123 | On an empty store: at most one token, plus the session's discards, plus its rejected or expiring tokens |
| `Masking.CleanMeansNoBadRun` | src/jibit/redaction.py:48-51 | Reading a text once decides what holds of all its maximal digit runs |
| `Masking.MatchShape` | src/jibit/redaction.py:48-51 | Each match begins and ends between digit runs and leaves four digits readable |
| `Masking.PassRemovesBadRuns` | src/jibit/redaction.py:64-69 | A pass that matches at every bad run leaves no bad run |
| `Masking.RedactTextLeavesNoIdentifier` | src/jibit/redaction.py:64-69 | No maximal digit run of length 16 or 10, of eleven digits starting 09 or of fourteen starting 00989 is left in any text |
| `Masking.RedactTextKeepsRuns` | src/jibit/redaction.py:64-73 | Every digit run left is four digits or a digit run of the input in full |
| `MaskRules.IbanExactly` | src/jibit/redaction.py:48 | The account number pattern, character by character |
| `MaskRules.CardExactly` | src/jibit/redaction.py:49 | The card pattern: sixteen digits, at most one blank or hyphen between two, no digit on either side |
| `MaskRules.MobileExactly` | src/jibit/redaction.py:50 | The mobile pattern with each of its prefixes |
| `MaskRules.NationalIdExactly` | src/jibit/redaction.py:51 | The national identifier pattern |
| `MaskRules.RunsLeft` | src/jibit/redaction.py:64-69 | The digit runs that never remain, by length and first digits |
| `MaskRules.PlainTextStays` | src/jibit/redaction.py:64-69 | Text that no pattern matches is kept |
| `MaskRules.IbanMasked` | src/jibit/redaction.py:66 | The mask of an account number |
| `MaskRules.CardMaskedAlone` | src/jibit/redaction.py:67 | The mask of a card number, separators or not |
| `MaskRules.MobileMasked` | src/jibit/redaction.py:68 | The mask of a mobile number with any prefix |
| `MaskRules.NationalIdMasked` | src/jibit/redaction.py:69 | The mask of a national identifier |
| `Leftovers.ScanLeaves` | src/jibit/redaction.py:64-69 | A pass leaves no match of its own pattern and makes none of a pattern gone before, but for card numbers behind a mask |
| `Leftovers.RedactTextLeavesNoMatch` | src/jibit/redaction.py:64-69 | No account number, mobile number in any prefix or national identifier matches the redacted text, and no card number but those of four digits and a separator behind a star |
| `Leftovers.CardBehindMaskIsLeft` | src/jibit/redaction.py:64-69 | The redacted form of a card number, a separator and twelve digits, with the card number it still holds |
| `FusedPasses.PassAfterScan` | src/jibit/redaction.py:66-69 | A pass for mobile numbers or national identifiers over the output of a scan is that scan with one more pattern |
| `FusedPasses.ThreePassesAreOneScan` | src/jibit/redaction.py:66-69 | The passes for cards, mobile numbers and national identifiers are one left-to-right scan of the text |
| `CardRemainders.CardIsLeftIff` | src/jibit/redaction.py:64-69 | The redacted text holds a card number exactly when, in the text with account numbers masked, a separator and twelve copied digits stand behind something the scan masks |
| `CardRemainders.NothingIsLeftIff` | src/jibit/redaction.py:64-69 | No pattern at all matches the redacted text exactly when no such digits stand there |
| `CardRemainders.WithoutChainsNothingIsLeft` | src/jibit/redaction.py:64-69 | If no digit of the text is followed by one or two separators and a digit, no pattern matches the redacted text |
| `CardRemainders.TwelveBehindRunKeepCard` | src/jibit/redaction.py:64-69 | Every card number, local mobile number or national identifier with a separator and twelve digits behind it keeps a card number |
| `CardRemainders.MobileIsMaskedIff` | src/jibit/redaction.py:66-68 | Where the scan comes to a mobile number it masks it exactly when nothing was masked right before it and no card number begins at it or behind its plus |
| `CardRemainders.MobileBehindCardIsLeft` | src/jibit/redaction.py:66-68 | A +98 mobile number behind a card number and a separator is left in full |
| `Redaction.SecretsDoNotShow` | src/jibit/redaction.py:76-93 | Payloads that differ only under sensitive keys, at any depth, are redacted to the same copy |
| `Redaction.RedactKeepsShape` | src/jibit/redaction.py:76-93 | Outside redacted subtrees the copy has the keys, list lengths and scalars of the original, texts without identifiers that keep all other digits and all text that no pattern matches, and the number of bytes |
| `Redaction.AliasIsEquallySensitive` | src/jibit/redaction.py:54-61 | The alias of any sensitive field is sensitive, and without two underscores in a row only of a sensitive one |
| `Redaction.ListedNames` | src/jibit/redaction.py:11-47 | The names that make a key sensitive |
| `Redaction.KeysAroundNamesAreSensitive` | src/jibit/redaction.py:58-61 | A snake-case key with any of the names anywhere in it is sensitive |
| `Redaction.CapitalisingKey` | src/jibit/redaction.py:54-61 | A key in capitals is never sensitive; a capital first letter makes no difference |
| `Redaction.OtpInCapitals` | src/jibit/redaction.py:54-61 | A one-time password under its key in capitals is not recognised |
| `KeyNames.AliasRoundTripIff` | src/jibit/models.py:10-13 | Normalising the alias of a snake-case name gives the name back exactly when its later parts start with letters and its first part is not empty |
| `KeyNames.AliasIsSquashed` | src/jibit/models.py:10-13 | For every snake-case name, exactly which underscores its alias brings back |
| `KeyNames.AliasesAreDistinct` | src/jibit/models.py:10-13 | Distinct recoverable names have distinct aliases |
| `KeyNames.HyphensAreUnderscores` | src/jibit/redaction.py:54-55 | Hyphens of a key without capitals are normalised to underscores, all else is kept |
| `CacheIdentity.SortedEqualIff` | src/jibit/auth/provider.py:222-228 | Sorting scopes forgets their order and nothing else |
| `CacheIdentity.IdentityEqualIff` | src/jibit/auth/provider.py:222-228 | For any components, identities are equal exactly when the components break into the same NUL-separated pieces |
| `CacheIdentity.IdentityIsExact` | src/jibit/auth/provider.py:214-230 | Without NUL characters identities are equal exactly for the same identifier, stripped base URL and scopes up to order |
| `CacheIdentity.IdentityExistsIff` | src/jibit/auth/provider.py:214-220 | There is an identity exactly if an API key that is not empty, or else a user name, is there |
| `CacheIdentity.NulInScopeCollides` | src/jibit/auth/provider.py:222-228 | One scope with a NUL and two scopes share an identity |

## Left out

- The HTTP transport, multipart encoding, time-outs and connection handling: the transport is an arbitrary outcome sequence.
- Service facades: endpoint paths and field lists; a response model is an arbitrary test of JSON values.
- The text of errors and the upstream fields copied into an error context; only kind, status, correlation identifier and retryable flag are kept.
- Validation of the configuration itself, and an authenticator for a service without a token contract.
- The digest of the cache identity: identities are compared before hashing.
- `RedisLockProvider`: lease expiry and blocking time-outs belong to Redis; mutual exclusion is proved for the thread lock provider.
- The re-entrant lock inside the in-memory store: its operations are single steps.
- JSON parsing, `urlsplit` (and the ValueError it raises on malformed hosts), number formats beyond reals, infinities and overflow.
- Lower-casing of characters outside ASCII in key names.
- Exceptions of a store operation other than on unreadable data, in the models of single calls; the token protocol has them.
- Idempotence of `redact_text`, which the code does not have: a card number can be left, and a second pass masks it.

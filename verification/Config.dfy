/** src/jibit/config.py and src/jibit/types.py, as far as requests and tokens depend on them.
    A URL is the text `str` gives for it; a secret is the text it protects. */
module Config {
  import opened PyValues
  import opened Retry

  datatype ServiceName = PaymentGateway | Transfers | Cobank | Identicator | Kyc | DirectDebit | Sms | Contracts

  datatype Credentials = Credentials(apiKey: Option<string>, secretKey: Option<string>, username: Option<string>)

  datatype ServiceConfig = ServiceConfig(credentials: Credentials, baseUrl: Option<string>, scopes: seq<string>)

  datatype AuthConfig = AuthConfig(expiryLeeway: int, unknownTtl: Option<int>)
  {
    predicate Valid() {
      && 0 <= expiryLeeway <= 3600
      && (unknownTtl.Some? ==> unknownTtl.value >= 60)
    }

    function Leeway(): real { expiryLeeway as real }
  }

  datatype JibitConfig = JibitConfig(baseUrl: string, retry: RetryConfig, auth: AuthConfig,
      services: map<ServiceName, ServiceConfig>)
  {
    predicate Valid() {
      retry.Valid() && auth.Valid()
    }
  }

  /** `value.rstrip(c)` */
  function StripRight(s: string, c: char): string {
    if s != "" && s[|s| - 1] == c then StripRight(s[..|s| - 1], c) else s
  }

  /** `r` is `s` without the characters `c` at its end. */
  predicate TrimmedRight(s: string, c: char, r: string) {
    r <= s && (forall i :: |r| <= i < |s| ==> s[i] == c) && (r == "" || r[|r| - 1] != c)
  }

  /** `r` is `s` without the characters `c` at its start. */
  predicate TrimmedLeft(s: string, c: char, r: string) {
    && |r| <= |s| && s[|s| - |r|..] == r
    && (forall i :: 0 <= i < |s| - |r| ==> s[i] == c) && (r == "" || r[0] != c)
  }

  lemma {:induction false} StripRightTrims(s: string, c: char)
    ensures TrimmedRight(s, c, StripRight(s, c))
  {
    if s != "" && s[|s| - 1] == c {
      StripRightTrims(s[..|s| - 1], c);
    }
  }

  lemma {:induction false} StripLeftTrims(s: string, c: char)
    ensures TrimmedLeft(s, c, StripLeft(s, c))
  {
    if s != "" && s[0] == c {
      StripLeftTrims(s[1..], c);
      TrimmedMore(s, c, StripLeft(s[1..], c));
    } else {
      assert s[0..] == s;
    }
    hide TrimmedLeft;
  }

  lemma TrimmedMore(s: string, c: char, r: string)
    requires s != "" && s[0] == c && TrimmedLeft(s[1..], c, r)
    ensures TrimmedLeft(s, c, r)
  {
    var rest := s[1..];
    assert s[|s| - |r|..] == rest[|rest| - |r|..];
    forall i | 0 <= i < |s| - |r| ensures s[i] == c {
      assert i > 0 ==> s[i] == rest[i - 1];
    }
  }

  /** Trimming at the end has one result. */
  lemma TrimmedOnce(s: string, c: char, q: string, r: string)
    requires TrimmedRight(s, c, q) && TrimmedRight(s, c, r)
    ensures q == r
  {
    assert q != "" ==> q[|q| - 1] == s[|q| - 1];
    assert r != "" ==> r[|r| - 1] == s[|r| - 1];
  }

  /** `value.lstrip(c)` */
  function StripLeft(s: string, c: char): string {
    if s != "" && s[0] == c then StripLeft(s[1..], c) else s
  }
}

/** src/jibit/auth/tokens.py */
module Tokens {
  import opened PyValues
  import opened Text
  import opened Base64Url

  datatype TokenState = TokenState(
    access: string, refresh: Option<string>, expiresAt: Option<real>, refreshExpiresAt: Option<real>,
    tokenType: string, scopes: seq<string>)
  {
    /** An empty secret is falsy, so an empty refresh token reads as none. */
    function RefreshValue(): Option<string> {
      if refresh.Some? && refresh.value != "" then refresh else None
    }

    predicate IsAccessValid(now: real, leeway: real) {
      expiresAt.None? || now + leeway < expiresAt.value
    }

    predicate IsRefreshValid(now: real, leeway: real) {
      refresh.Some? && (refreshExpiresAt.None? || now + leeway < refreshExpiresAt.value)
    }

    function ToCacheData(): map<string, PyValue> {
      map[
        "access_token" := PyStr(access),
        "refresh_token" := if RefreshValue().Some? then PyStr(RefreshValue().value) else PyNone,
        "expires_at" := if expiresAt.Some? then PyFloat(expiresAt.value) else PyNone,
        "refresh_expires_at" := if refreshExpiresAt.Some? then PyFloat(refreshExpiresAt.value) else PyNone,
        "token_type" := PyStr(tokenType),
        "scopes" := PyList(seq(|scopes|, i requires 0 <= i < |scopes| => PyStr(scopes[i])))]
    }

    /** The tokens that survive serialisation. */
    predicate Canonical() {
      access != "" && refresh != Some("") && tokenType != ""
    }
  }

  function OptionalFloat(v: PyValue): Option<real> {
    match v
    case PyBool(b) => Some(if b then 1.0 else 0.0)
    case PyInt(n) => Some(n as real)
    case PyFloat(x) => Some(x)
    case _ => None
  }

  /** What iterating over a value yields; None is the TypeError of a value that cannot be iterated. */
  function Iterate(platform: Platform, v: PyValue): Option<seq<PyValue>> {
    match v
    case PyList(items) => Some(items)
    case PyStr(s) => Some(seq(|s|, i requires 0 <= i < |s| => PyStr([s[i]])))
    case PyDict(fields) =>
      var keys := platform.keyOrder(fields);
      Some(seq(|keys|, i requires 0 <= i < |keys| => PyStr(keys[i])))
    case _ => None
  }

  function StrAll(platform: Platform, items: seq<PyValue>): seq<string> {
    seq(|items|, i requires 0 <= i < |items| => platform.str(items[i]))
  }

  /** `str(value or "Bearer")` */
  function TokenTypeOf(platform: Platform, v: PyValue): string {
    if Truthy(v) then platform.str(v) else platform.str(PyStr("Bearer"))
  }

  /** None is the ValueError or TypeError raised for data of the wrong shape. */
  function FromCacheData(platform: Platform, data: map<string, PyValue>): Option<TokenState> {
    var access := Get(data, "access_token");
    if !access.PyStr? || access.s == "" then None
    else
      var refresh := Get(data, "refresh_token");
      var scopes := Get(data, "scopes");
      var items := if Truthy(scopes) then Iterate(platform, scopes) else Some([]);
      if items.None? then None
      else Some(TokenState(
        access.s,
        if refresh.PyStr? then Some(refresh.s) else None,
        OptionalFloat(Get(data, "expires_at")),
        OptionalFloat(Get(data, "refresh_expires_at")),
        TokenTypeOf(platform, Get(data, "token_type")),
        StrAll(platform, items.value)))
  }

  /** Serialising and reading back gives the same token exactly for canonical tokens. */
  lemma CacheRoundTripIff(platform: Platform, t: TokenState)
    requires platform.Valid()
    ensures FromCacheData(platform, t.ToCacheData()) == Some(t) <==> t.Canonical()
  {
    var data := t.ToCacheData();
    var items := seq(|t.scopes|, i requires 0 <= i < |t.scopes| => PyStr(t.scopes[i]));
    assert StrAll(platform, items) == t.scopes;
    if t.scopes == [] {
      assert items == [];
      assert StrAll(platform, []) == t.scopes;
    }
    assert Get(data, "scopes") == PyList(items);
  }

  /** `float(value)` on a claim; None is the error. */
  function FloatOf(platform: Platform, v: PyValue): Option<real> {
    if v.PyStr? then platform.floatOfString(v.s) else OptionalFloat(v)
  }

  /** What the middle part of a token gives. */
  function PayloadExpiry(platform: Platform, middle: string): Option<real> {
    if exists i :: 0 <= i < |middle| && middle[i] >= 128 as char then None
    else
      match Decode(Repad(middle), 0, 0, 0)
      case None => None
      case Some(bytes) =>
        match platform.loadsBytes(bytes)
        case Some(PyDict(fields)) =>
          var expiry := Get(fields, "exp");
          if expiry == PyNone then None else FloatOf(platform, expiry)
        case _ => None
  }

  function JwtExpiry(platform: Platform, token: string): Option<real> {
    var parts := Split(token, '.');
    if |parts| != 3 then None else PayloadExpiry(platform, parts[1])
  }

  /** Whatever bytes the payload consists of, the claim they carry is read back unchanged
      from the unpadded middle part of a three-part token. */
  lemma JwtPayloadRecovered(platform: Platform, header: string, payload: seq<Byte>, signature: string,
      fields: map<string, PyValue>)
    requires '.' !in header && '.' !in signature
    requires platform.loadsBytes(payload) == Some(PyDict(fields))
    ensures
      var expiry := Get(fields, "exp");
      JwtExpiry(platform, header + ['.'] + (Unpadded(payload) + ['.'] + signature))
        == if expiry == PyNone then None else FloatOf(platform, expiry)
    ensures
      var expiry := Get(fields, "exp");
      expiry.PyInt? ==>
        JwtExpiry(platform, header + ['.'] + (Unpadded(payload) + ['.'] + signature)) == Some(expiry.n as real)
  {
    hide Decode, Encode, Repad, Unpadded;
    RepadRestores(payload);
    SplitOfAppend(header, Unpadded(payload) + ['.'] + signature, '.');
    SplitOfAppend(Unpadded(payload), signature, '.');
    SplitWithout(header, '.');
    SplitWithout(Unpadded(payload), '.');
    SplitWithout(signature, '.');
    var parts := [header] + ([Unpadded(payload)] + [signature]);
    assert parts[1] == Unpadded(payload);
  }

  // ----- Exactly which tokens carry an expiry -----

  /** A payload of this many characters is followed by this many fill characters. */
  function FillFor(n: nat): nat {
    if n % 4 == 0 then 0 else 4 - n % 4
  }

  /** The token consists of three parts without dots, the middle one ASCII text that decodes, filled up with "=", to
      a dictionary whose `exp` is a number, a truth value, or a text that reads as a number. */
  ghost predicate CarriesExpiry(platform: Platform, token: string, at: real) {
    exists header, middle, signature ::
      && token == header + "." + middle + "." + signature
      && '.' !in header && '.' !in middle && '.' !in signature
      && (forall i :: 0 <= i < |middle| ==> middle[i] < 128 as char)
      && PayloadGives(platform, middle, at)
  }

  ghost predicate PayloadGives(platform: Platform, middle: string, at: real) {
    exists fill: string, bytes, claims ::
      && |fill| == FillFor(|middle|) && (forall i :: 0 <= i < |fill| ==> fill[i] == '=')
      && Decode(middle + fill, 0, 0, 0) == Some(bytes)
      && platform.loadsBytes(bytes) == Some(PyDict(claims))
      && "exp" in claims
      && ClaimIs(platform, claims["exp"], at)
  }

  predicate ClaimIs(platform: Platform, claim: PyValue, at: real) {
    || (claim.PyInt? && at == claim.n as real)
    || (claim.PyFloat? && at == claim.x)
    || (claim.PyBool? && at == if claim.b then 1.0 else 0.0)
    || (claim.PyStr? && platform.floatOfString(claim.s) == Some(at))
  }

  lemma {:induction false} PiecesArePlain(s: string, sep: char)
    ensures forall i :: 0 <= i < |Split(s, sep)| ==> sep !in Split(s, sep)[i]
  {
    if s != "" {
      PiecesArePlain(s[1..], sep);
    }
  }

  lemma ThreeParts(header: string, middle: string, signature: string)
    requires '.' !in header && '.' !in middle && '.' !in signature
    ensures Split(header + "." + middle + "." + signature, '.') == [header, middle, signature]
  {
    SplitOfAppend(header, middle + ['.'] + signature, '.');
    SplitOfAppend(middle, signature, '.');
    SplitWithout(header, '.');
    SplitWithout(middle, '.');
    SplitWithout(signature, '.');
    assert header + "." + middle + "." + signature == header + ['.'] + (middle + ['.'] + signature);
    assert [header] + ([middle] + [signature]) == [header, middle, signature];
  }

  lemma PartsOf(token: string)
    requires |Split(token, '.')| == 3
    ensures
      var parts := Split(token, '.');
      && token == parts[0] + "." + parts[1] + "." + parts[2]
      && '.' !in parts[0] && '.' !in parts[1] && '.' !in parts[2]
  {
    var parts := Split(token, '.');
    PiecesArePlain(token, '.');
    JoinOfSplit(token, '.');
    assert parts[1..] == [parts[1], parts[2]] && parts[1..][1..] == [parts[2]];
    assert Join(parts[1..], '.') == parts[1] + ['.'] + parts[2];
    assert parts[0] + ['.'] + (parts[1] + ['.'] + parts[2]) == parts[0] + "." + parts[1] + "." + parts[2];
  }

  lemma FillIsUnique(middle: string, fill: string)
    requires |fill| == FillFor(|middle|) && forall i :: 0 <= i < |fill| ==> fill[i] == '='
    ensures middle + fill == Repad(middle)
  {
    assert fill == Padding(-|middle| % 4);
  }

  lemma ClaimIff(platform: Platform, claim: PyValue, at: real)
    ensures claim != PyNone && FloatOf(platform, claim) == Some(at) <==> ClaimIs(platform, claim, at)
  {
  }

  lemma PayloadIff(platform: Platform, middle: string, at: real)
    requires forall i :: 0 <= i < |middle| ==> middle[i] < 128 as char
    ensures PayloadExpiry(platform, middle) == Some(at) <==> PayloadGives(platform, middle, at)
  {
    hide Decode;
    FillIsUnique(middle, Padding(-|middle| % 4));
    forall fill: string | |fill| == FillFor(|middle|) && forall i :: 0 <= i < |fill| ==> fill[i] == '='
      ensures middle + fill == Repad(middle)
    {
      FillIsUnique(middle, fill);
    }
    forall claim ensures claim != PyNone && FloatOf(platform, claim) == Some(at) <==> ClaimIs(platform, claim, at) {
      ClaimIff(platform, claim, at);
    }
    hide Repad, FloatOf, ClaimIs;
  }

  /** The middle of three parts is ASCII text and gives the expiry. */
  ghost predicate MiddleGives(platform: Platform, middle: string, at: real) {
    (forall i :: 0 <= i < |middle| ==> middle[i] < 128 as char) && PayloadGives(platform, middle, at)
  }

  lemma MiddleIff(platform: Platform, middle: string, at: real)
    ensures PayloadExpiry(platform, middle) == Some(at) <==> MiddleGives(platform, middle, at)
  {
    hide PayloadGives;
    if forall i :: 0 <= i < |middle| ==> middle[i] < 128 as char {
      PayloadIff(platform, middle, at);
      hide PayloadExpiry;
    } else {
      hide Decode;
    }
  }

  /** An expiry is read from exactly the tokens that carry it. */
  lemma JwtExpiryIff(platform: Platform, token: string, at: real)
    ensures JwtExpiry(platform, token) == Some(at) <==> CarriesExpiry(platform, token, at)
  {
    hide Split, PayloadExpiry, PayloadGives;
    var parts := Split(token, '.');
    if JwtExpiry(platform, token) == Some(at) {
      PartsOf(token);
      MiddleIff(platform, parts[1], at);
    }
    if CarriesExpiry(platform, token, at) {
      var header, middle, signature :|
        && token == header + "." + middle + "." + signature
        && '.' !in header && '.' !in middle && '.' !in signature
        && (forall i :: 0 <= i < |middle| ==> middle[i] < 128 as char)
        && PayloadGives(platform, middle, at);
      ThreeParts(header, middle, signature);
      MiddleIff(platform, middle, at);
      hide CarriesExpiry;
    }
  }

  function Dots(token: string): nat {
    if token == "" then 0 else (if token[0] == '.' then 1 else 0) + Dots(token[1..])
  }

  lemma {:induction false} DotsSplit(token: string)
    ensures |Split(token, '.')| == Dots(token) + 1
  {
    if token != "" {
      DotsSplit(token[1..]);
    }
  }

  /** A token without exactly two dots carries no expiry. */
  lemma OpaqueByDots(platform: Platform, token: string, at: real)
    requires Dots(token) != 2
    ensures !CarriesExpiry(platform, token, at)
  {
    DotsSplit(token);
    JwtExpiryIff(platform, token, at);
    hide CarriesExpiry, Split;
  }

  // ----- Cached data in its own terms -----

  /** Data can be read exactly if they hold an access token that is a text and not empty, and scopes that are
      absent, falsy, or can be iterated over. */
  lemma CacheDataReadableIff(platform: Platform, data: map<string, PyValue>)
    ensures FromCacheData(platform, data).Some?
      <==>
        && "access_token" in data && data["access_token"].PyStr? && data["access_token"].s != ""
        && ("scopes" in data ==>
              var v := data["scopes"];
              v.PyList? || v.PyStr? || v.PyDict? || v in {PyNone, PyBool(false), PyInt(0), PyFloat(0.0)})
  {
  }

  /** A full dictionary as a backend holds it. */
  lemma CacheDataRead(platform: Platform, access: string, refresh: string, at: real, refreshAt: real, kind: string,
      scopes: seq<string>)
    requires platform.Valid() && access != "" && kind != ""
    ensures
      var items := seq(|scopes|, i requires 0 <= i < |scopes| => PyStr(scopes[i]));
      FromCacheData(platform, map[
        "access_token" := PyStr(access), "refresh_token" := PyStr(refresh), "expires_at" := PyFloat(at),
        "refresh_expires_at" := PyFloat(refreshAt), "token_type" := PyStr(kind), "scopes" := PyList(items)])
      == Some(TokenState(access, Some(refresh), Some(at), Some(refreshAt), kind, scopes))
  {
    var items := seq(|scopes|, i requires 0 <= i < |scopes| => PyStr(scopes[i]));
    assert StrAll(platform, items) == scopes;
    assert scopes == [] ==> StrAll(platform, []) == scopes;
  }

  /** Data with nothing but an access token. */
  lemma BareCacheDataRead(platform: Platform, access: string)
    requires platform.Valid() && access != ""
    ensures FromCacheData(platform, map["access_token" := PyStr(access)])
      == Some(TokenState(access, None, None, None, "Bearer", []))
  {
    assert StrAll(platform, []) == [];
  }
}

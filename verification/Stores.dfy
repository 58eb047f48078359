/** src/jibit/auth/store.py, src/jibit/auth/django.py and src/jibit/auth/redis.py */
module Stores {
  import opened PyValues
  import opened Tokens

  /** What `get` does: nothing stored, a token, or a ValueError or TypeError. */
  datatype LoadResult = Missing | Loaded(token: TokenState) | Unreadable

  datatype StoreKind = InMemory | DjangoCache | RedisJson

  /** What a backend holds under one key. */
  datatype RawEntry = Empty | Object(token: TokenState) | Data(value: PyValue) | Utf8(text: JsonText) | OtherBytes

  function LoadData(platform: Platform, data: map<string, PyValue>): LoadResult {
    match FromCacheData(platform, data)
    case None => Unreadable
    case Some(t) => Loaded(t)
  }

  function Load(platform: Platform, kind: StoreKind, raw: RawEntry): LoadResult {
    if raw == Empty then Missing
    else
      match kind
      case InMemory => if raw.Object? then Loaded(raw.token) else Unreadable
      case DjangoCache =>
        if raw == Data(PyNone) then Missing
        else if raw.Data? && raw.value.PyDict? then LoadData(platform, raw.value.fields)
        else Unreadable
      case RedisJson =>
        if !raw.Utf8? then Unreadable
        else
          match platform.loads(raw.text)
          case Some(PyDict(fields)) => LoadData(platform, fields)
          case _ => Unreadable
  }

  function Save(platform: Platform, kind: StoreKind, token: TokenState): RawEntry {
    match kind
    case InMemory => Object(token)
    case DjangoCache => Data(PyDict(token.ToCacheData()))
    case RedisJson => Utf8(platform.dumps(token.ToCacheData()))
  }

  /** Every kind of store gives a canonical token back; the serialising ones give no other token back. */
  lemma LoadOfSaveIff(platform: Platform, kind: StoreKind, token: TokenState)
    requires platform.Valid()
    ensures Load(platform, kind, Save(platform, kind, token)) == Loaded(token)
      <==> kind == InMemory || token.Canonical()
  {
    CacheRoundTripIff(platform, token);
  }

  /** What a store gives: a token for readable data, nothing for no data, and an error for all else, so that the
      authenticator deletes it. The in-memory store holds tokens, the Django cache dictionaries, and Redis the text of
      dictionaries. */
  lemma LoadsExactly(platform: Platform, kind: StoreKind, raw: RawEntry)
    ensures Load(platform, kind, raw) == Missing <==> raw == Empty || (kind == DjangoCache && raw == Data(PyNone))
    ensures forall t :: Load(platform, kind, raw) == Loaded(t) <==>
      || (kind == InMemory && raw == Object(t))
      || (kind == DjangoCache && raw.Data? && raw.value.PyDict? && FromCacheData(platform, raw.value.fields) == Some(t))
      || (kind == RedisJson && raw.Utf8? && platform.loads(raw.text).Some? && platform.loads(raw.text).value.PyDict?
          && FromCacheData(platform, platform.loads(raw.text).value.fields) == Some(t))
  {
  }

  // ----- The in-memory store -----

  class InMemoryTokenStore {
    var tokens: map<string, TokenState>

    constructor ()
      ensures tokens == map[]
    {
      tokens := map[];
    }

    function RawAt(key: string): RawEntry
      reads this
    {
      if key in tokens then Object(tokens[key]) else Empty
    }

    method Get(key: string) returns (r: LoadResult)
      ensures r == if key in tokens then Loaded(tokens[key]) else Missing
    {
      r := if key in tokens then Loaded(tokens[key]) else Missing;
    }

    method Set(key: string, token: TokenState)
      modifies this
      ensures tokens == old(tokens)[key := token]
    {
      tokens := tokens[key := token];
    }

    method Delete(key: string)
      modifies this
      ensures tokens == old(tokens) - {key}
    {
      tokens := tokens - {key};
    }
  }

  // ----- The stores over a shared backend -----

  function PrefixedKey(prefix: string, key: string): string {
    prefix + ":" + key
  }

  class DjangoCacheTokenStore {
    const platform: Platform
    const keyPrefix: string
    var cache: map<string, PyValue>

    constructor (platform: Platform, keyPrefix: string, cache: map<string, PyValue>)
      ensures this.platform == platform && this.keyPrefix == keyPrefix && this.cache == cache
    {
      this.platform, this.keyPrefix, this.cache := platform, keyPrefix, cache;
    }

    function RawAt(key: string): RawEntry
      reads this
    {
      var name := PrefixedKey(keyPrefix, key);
      if name in cache then Data(cache[name]) else Empty
    }

    method Get(key: string) returns (r: LoadResult)
      ensures r == Load(platform, DjangoCache, RawAt(key))
    {
      var value := PyValues.Get(cache, PrefixedKey(keyPrefix, key));
      if value == PyNone {
        return Missing;
      }
      if !value.PyDict? {
        return Unreadable;
      }
      r := LoadData(platform, value.fields);
    }

    method Set(key: string, token: TokenState)
      modifies this
      ensures cache == old(cache)[PrefixedKey(keyPrefix, key) := PyDict(token.ToCacheData())]
    {
      cache := cache[PrefixedKey(keyPrefix, key) := PyDict(token.ToCacheData())];
    }

    method Delete(key: string)
      modifies this
      ensures cache == old(cache) - {PrefixedKey(keyPrefix, key)}
    {
      cache := cache - {PrefixedKey(keyPrefix, key)};
    }
  }

  /** A Redis value: bytes that decode to the text, or bytes that do not decode. */
  datatype RedisValue = TextValue(text: JsonText) | UndecodableValue

  class RedisTokenStore {
    const platform: Platform
    const keyPrefix: string
    var values: map<string, RedisValue>

    constructor (platform: Platform, keyPrefix: string, values: map<string, RedisValue>)
      ensures this.platform == platform && this.keyPrefix == keyPrefix && this.values == values
    {
      this.platform, this.keyPrefix, this.values := platform, keyPrefix, values;
    }

    function RawAt(key: string): RawEntry
      reads this
    {
      var name := PrefixedKey(keyPrefix, key);
      if name !in values then Empty
      else if values[name].TextValue? then Utf8(values[name].text)
      else OtherBytes
    }

    method Get(key: string) returns (r: LoadResult)
      ensures r == Load(platform, RedisJson, RawAt(key))
    {
      var name := PrefixedKey(keyPrefix, key);
      if name !in values {
        return Missing;
      }
      if values[name].UndecodableValue? {
        return Unreadable;
      }
      match platform.loads(values[name].text) {
        case Some(PyDict(fields)) => r := LoadData(platform, fields);
        case _ => r := Unreadable;
      }
    }

    method Set(key: string, token: TokenState)
      modifies this
      ensures values == old(values)[PrefixedKey(keyPrefix, key) := TextValue(platform.dumps(token.ToCacheData()))]
    {
      values := values[PrefixedKey(keyPrefix, key) := TextValue(platform.dumps(token.ToCacheData()))];
    }

    method Delete(key: string)
      modifies this
      ensures values == old(values) - {PrefixedKey(keyPrefix, key)}
    {
      values := values - {PrefixedKey(keyPrefix, key)};
    }
  }

  // ----- Any of the three behind one protocol -----

  datatype TokenStore =
    | MemoryStore(memory: InMemoryTokenStore)
    | DjangoStore(django: DjangoCacheTokenStore)
    | RedisStore(redis: RedisTokenStore)
  {
    function Footprint(): object {
      match this
      case MemoryStore(m) => m
      case DjangoStore(d) => d
      case RedisStore(r) => r
    }

    function Kind(): StoreKind {
      match this
      case MemoryStore(_) => InMemory
      case DjangoStore(_) => DjangoCache
      case RedisStore(_) => RedisJson
    }

    /** The store was built on this platform. */
    ghost predicate On(platform: Platform) {
      match this
      case MemoryStore(_) => true
      case DjangoStore(d) => d.platform == platform
      case RedisStore(r) => r.platform == platform
    }

    function RawAt(key: string): RawEntry
      reads Footprint()
    {
      match this
      case MemoryStore(m) => m.RawAt(key)
      case DjangoStore(d) => d.RawAt(key)
      case RedisStore(r) => r.RawAt(key)
    }

    method Get(platform: Platform, key: string) returns (r: LoadResult)
      requires On(platform)
      ensures r == Load(platform, Kind(), RawAt(key))
    {
      match this {
        case MemoryStore(m) => r := m.Get(key);
        case DjangoStore(d) => r := d.Get(key);
        case RedisStore(s) => r := s.Get(key);
      }
    }

    /** The token replaces the entry of its own key and touches no other. */
    method Set(platform: Platform, key: string, token: TokenState)
      requires On(platform)
      modifies Footprint()
      ensures RawAt(key) == Save(platform, Kind(), token)
      ensures forall other | other != key :: RawAt(other) == old(RawAt(other))
    {
      forall a, b, prefix | a != b ensures PrefixedKey(prefix, a) != PrefixedKey(prefix, b) {
        PrefixKeepsKeysApart(prefix, a, b);
      }
      match this {
        case MemoryStore(m) => m.Set(key, token);
        case DjangoStore(d) => d.Set(key, token);
        case RedisStore(r) => r.Set(key, token);
      }
    }

    method Delete(key: string)
      modifies Footprint()
      ensures RawAt(key) == Empty
      ensures forall other | other != key :: RawAt(other) == old(RawAt(other))
    {
      forall a, b, prefix | a != b ensures PrefixedKey(prefix, a) != PrefixedKey(prefix, b) {
        PrefixKeepsKeysApart(prefix, a, b);
      }
      match this {
        case MemoryStore(m) => m.Delete(key);
        case DjangoStore(d) => d.Delete(key);
        case RedisStore(r) => r.Delete(key);
      }
    }
  }

  lemma PrefixKeepsKeysApart(prefix: string, a: string, b: string)
    requires a != b
    ensures PrefixedKey(prefix, a) != PrefixedKey(prefix, b)
  {
    assert PrefixedKey(prefix, a)[|prefix| + 1..] == a;
    assert PrefixedKey(prefix, b)[|prefix| + 1..] == b;
  }

  /** Two users of one backend can meet on a name exactly when one prefix with its colon starts the other. */
  lemma PrefixesMeetIff(p: string, q: string)
    ensures (exists a, b :: PrefixedKey(p, a) == PrefixedKey(q, b)) <==> p + ":" <= q + ":" || q + ":" <= p + ":"
  {
    var pc, qc := p + ":", q + ":";
    if pc <= qc {
      assert qc == pc + qc[|pc|..];
      assert PrefixedKey(p, qc[|pc|..]) == PrefixedKey(q, "");
    }
    if qc <= pc {
      assert pc == qc + pc[|qc|..];
      assert PrefixedKey(p, "") == PrefixedKey(q, pc[|qc|..]);
    }
    if a, b :| PrefixedKey(p, a) == PrefixedKey(q, b) {
      var name := pc + a;
      assert name == qc + b;
      assert forall i :: 0 <= i < |pc| ==> name[i] == pc[i];
      assert forall i :: 0 <= i < |qc| ==> (qc + b)[i] == qc[i];
    }
  }
}

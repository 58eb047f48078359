/** The identity string `_build_cache_key` of src/jibit/auth/provider.py hashes. */
module CacheIdentity {
  import opened PyValues
  import opened Text
  import opened Config

  // ----- `sorted` on strings -----

  /** Lexicographic order by code points. */
  predicate AtMost(a: string, b: string)
    decreases |a|
  {
    if a == "" then true
    else if b == "" then false
    else if a[0] != b[0] then a[0] < b[0]
    else AtMost(a[1..], b[1..])
  }

  function Insert(x: string, xs: seq<string>): seq<string> {
    if xs == [] then [x]
    else if AtMost(x, xs[0]) then [x] + xs
    else [xs[0]] + Insert(x, xs[1..])
  }

  function Sorted(xs: seq<string>): seq<string> {
    if xs == [] then [] else Insert(xs[0], Sorted(xs[1..]))
  }

  predicate Ordered(xs: seq<string>) {
    |xs| <= 1 || (AtMost(xs[0], xs[1]) && Ordered(xs[1..]))
  }

  lemma {:induction false} AtMostIsTotal(a: string, b: string)
    ensures AtMost(a, b) || AtMost(b, a)
    decreases |a|
  {
    if a != "" && b != "" && a[0] == b[0] {
      AtMostIsTotal(a[1..], b[1..]);
    }
  }

  lemma {:induction false} AtMostIsAntisymmetric(a: string, b: string)
    requires AtMost(a, b) && AtMost(b, a)
    ensures a == b
    decreases |a|
  {
    if a != "" && b != "" {
      AtMostIsAntisymmetric(a[1..], b[1..]);
      assert a == [a[0]] + a[1..] && b == [b[0]] + b[1..];
    }
  }

  lemma {:induction false} AtMostIsTransitive(a: string, b: string, c: string)
    requires AtMost(a, b) && AtMost(b, c)
    ensures AtMost(a, c)
    decreases |a|
  {
    if a != "" && a[0] == b[0] && b[0] == c[0] {
      AtMostIsTransitive(a[1..], b[1..], c[1..]);
    }
  }

  lemma {:induction false} InsertKeepsOrder(x: string, xs: seq<string>)
    requires Ordered(xs)
    ensures Ordered(Insert(x, xs))
  {
    if xs != [] {
      var rest := Insert(x, xs[1..]);
      AtMostIsTotal(x, xs[0]);
      InsertKeepsOrder(x, xs[1..]);
      assert ([x] + xs)[1..] == xs;
      assert ([xs[0]] + rest)[1..] == rest;
    }
  }

  lemma {:induction false} InsertPermutes(x: string, xs: seq<string>)
    ensures multiset(Insert(x, xs)) == multiset(xs) + multiset{x}
  {
    if xs != [] {
      InsertPermutes(x, xs[1..]);
      assert xs == [xs[0]] + xs[1..];
      hide AtMost;
    }
  }

  lemma {:induction false} SortedIsOrdered(xs: seq<string>)
    ensures Ordered(Sorted(xs)) && multiset(Sorted(xs)) == multiset(xs)
  {
    if xs != [] {
      SortedIsOrdered(xs[1..]);
      var rest := Sorted(xs[1..]);
      InsertKeepsOrder(xs[0], rest);
      InsertPermutes(xs[0], rest);
      assert Sorted(xs) == Insert(xs[0], rest);
      hide AtMost, Insert, Ordered, Sorted;
      assert xs == [xs[0]] + xs[1..];
    }
  }

  lemma {:induction false} HeadIsLeast(xs: seq<string>, y: string)
    requires Ordered(xs) && y in xs
    ensures AtMost(xs[0], y)
  {
    AtMostReflexive(xs[0]);
    if y != xs[0] {
      assert xs == [xs[0]] + xs[1..];
      assert y in xs[1..];
      HeadIsLeast(xs[1..], y);
      AtMostIsTransitive(xs[0], xs[1], y);
    }
  }

  lemma LeastIsShared(xs: seq<string>, ys: seq<string>)
    requires Ordered(xs) && Ordered(ys) && multiset(xs) == multiset(ys) && xs != [] && ys != []
    ensures xs[0] == ys[0]
  {
    assert xs[0] in multiset(ys) && ys[0] in multiset(xs);
    HeadIsLeast(xs, ys[0]);
    HeadIsLeast(ys, xs[0]);
    AtMostIsAntisymmetric(xs[0], ys[0]);
    hide AtMost, Ordered;
  }

  lemma TailIsOrdered(xs: seq<string>)
    requires Ordered(xs) && xs != []
    ensures Ordered(xs[1..])
  {
    hide AtMost;
  }

  lemma TailLacksHead(xs: seq<string>)
    requires xs != []
    ensures multiset(xs[1..]) == multiset(xs) - multiset{xs[0]}
  {
    assert xs == [xs[0]] + xs[1..];
  }

  lemma {:induction false} OrderedIsUnique(xs: seq<string>, ys: seq<string>)
    requires Ordered(xs) && Ordered(ys) && multiset(xs) == multiset(ys)
    ensures xs == ys
  {
    if xs == [] || ys == [] {
      assert |multiset(xs)| == |xs| && |multiset(ys)| == |ys|;
    } else {
      LeastIsShared(xs, ys);
      TailIsOrdered(xs);
      TailIsOrdered(ys);
      hide AtMost, Ordered;
      TailLacksHead(xs);
      TailLacksHead(ys);
      OrderedIsUnique(xs[1..], ys[1..]);
      assert xs == [xs[0]] + xs[1..] && ys == [ys[0]] + ys[1..];
    }
  }

  lemma {:induction false} AtMostReflexive(a: string)
    ensures AtMost(a, a)
  {
    if a != "" {
      AtMostReflexive(a[1..]);
    }
  }

  /** Sorting forgets the order and nothing else. */
  lemma SortedEqualIff(xs: seq<string>, ys: seq<string>)
    ensures Sorted(xs) == Sorted(ys) <==> multiset(xs) == multiset(ys)
  {
    SortedIsOrdered(xs);
    SortedIsOrdered(ys);
    if multiset(xs) == multiset(ys) {
      OrderedIsUnique(Sorted(xs), Sorted(ys));
    }
  }

  // ----- The identity -----

  /** `credentials.api_key or credentials.username`: an empty secret is falsy, but a present empty user name is not
      None. */
  function Identifier(c: Credentials): Option<string> {
    if c.apiKey.Some? && c.apiKey.value != "" then c.apiKey else c.username
  }

  function BaseUrl(config: JibitConfig, service: ServiceConfig): string {
    StripRight(if service.baseUrl.Some? then service.baseUrl.value else config.baseUrl, '/')
  }

  const NUL: char := 0 as char

  function Components(config: JibitConfig, service: ServiceConfig): seq<string>
    requires Identifier(service.credentials).Some?
  {
    [Identifier(service.credentials).value, BaseUrl(config, service)] + Sorted(service.scopes)
  }

  /** None is the configuration error of a service without a usable identifier. */
  function Identity(config: JibitConfig, service: ServiceConfig): Option<string> {
    if Identifier(service.credentials).None? then None
    else Some(Join(Components(config, service), NUL))
  }

  /** The credential that names a configuration: its key, unless that is missing or empty, or else its user name. */
  predicate Names(c: Credentials, text: string) {
    (c.apiKey == Some(text) && text != "") || ((c.apiKey.None? || c.apiKey == Some("")) && c.username == Some(text))
  }

  /** The service's base URL, or else the default one, without slashes at its end. */
  predicate Rooted(c: JibitConfig, s: ServiceConfig, root: string) {
    TrimmedRight(if s.baseUrl == None then c.baseUrl else s.baseUrl.value, '/', root)
  }

  /** The same naming credential, the same base URL but for slashes at the end, and the same scopes in any order. */
  ghost predicate SameCredentialScope(c: JibitConfig, s: ServiceConfig, d: JibitConfig, t: ServiceConfig) {
    && (exists text :: Names(s.credentials, text) && Names(t.credentials, text))
    && (exists root :: Rooted(c, s, root) && Rooted(d, t, root))
    && multiset(s.scopes) == multiset(t.scopes)
  }

  lemma IdentifierNames(c: Credentials, text: string)
    ensures Names(c, text) <==> Identifier(c) == Some(text)
  {
  }

  lemma BaseUrlRoots(c: JibitConfig, s: ServiceConfig, root: string)
    ensures Rooted(c, s, root) <==> root == BaseUrl(c, s)
  {
    var base := if s.baseUrl == None then c.baseUrl else s.baseUrl.value;
    StripRightTrims(base, '/');
    if Rooted(c, s, root) {
      TrimmedOnce(base, '/', root, BaseUrl(c, s));
    }
  }

  /** The scope in terms of the components. */
  lemma ScopeByComponents(c: JibitConfig, s: ServiceConfig, d: JibitConfig, t: ServiceConfig)
    requires Identifier(s.credentials).Some? && Identifier(t.credentials).Some?
    ensures SameCredentialScope(c, s, d, t) <==>
      && Identifier(s.credentials) == Identifier(t.credentials)
      && BaseUrl(c, s) == BaseUrl(d, t)
      && multiset(s.scopes) == multiset(t.scopes)
  {
    forall text ensures Names(s.credentials, text) <==> Identifier(s.credentials) == Some(text) {
      IdentifierNames(s.credentials, text);
    }
    forall text ensures Names(t.credentials, text) <==> Identifier(t.credentials) == Some(text) {
      IdentifierNames(t.credentials, text);
    }
    BaseUrlRoots(c, s, BaseUrl(c, s));
    forall root ensures Rooted(c, s, root) <==> root == BaseUrl(c, s) {
      BaseUrlRoots(c, s, root);
    }
    forall root ensures Rooted(d, t, root) <==> root == BaseUrl(d, t) {
      BaseUrlRoots(d, t, root);
    }
    hide Names, Rooted, Identifier, BaseUrl;
    assert Names(s.credentials, Identifier(s.credentials).value);
  }

  /** There is an identity exactly if some credential names the configuration. */
  lemma IdentityExistsIff(c: JibitConfig, s: ServiceConfig)
    ensures Identity(c, s).Some? <==> exists text :: Names(s.credentials, text)
  {
    if Identity(c, s).Some? {
      assert Names(s.credentials, Identifier(s.credentials).value);
    }
  }

  predicate NulFree(c: JibitConfig, s: ServiceConfig)
    requires Identifier(s.credentials).Some?
  {
    && NUL !in Identifier(s.credentials).value
    && NUL !in BaseUrl(c, s)
    && (forall i :: 0 <= i < |s.scopes| ==> NUL !in s.scopes[i])
  }

  /** For any components: two identities are equal exactly when the components break into the same NUL-separated
      pieces. */
  lemma IdentityEqualIff(c: JibitConfig, s: ServiceConfig, d: JibitConfig, t: ServiceConfig)
    requires Identifier(s.credentials).Some? && Identifier(t.credentials).Some?
    ensures Identity(c, s) == Identity(d, t) <==> SplitAll(Components(c, s), NUL) == SplitAll(Components(d, t), NUL)
  {
    JoinEqualIff(Components(c, s), Components(d, t), NUL);
  }

  lemma ComponentsNulFree(c: JibitConfig, s: ServiceConfig)
    requires Identifier(s.credentials).Some? && NulFree(c, s)
    ensures SplitAll(Components(c, s), NUL) == Components(c, s)
  {
    SortedIsOrdered(s.scopes);
    forall p | p in Components(c, s) ensures NUL !in p {
      if p in Sorted(s.scopes) {
        assert p in multiset(Sorted(s.scopes));
        assert p in s.scopes;
      }
    }
    SplitAllWithout(Components(c, s), NUL);
  }

  /** Without NUL characters the identity is exact: same identifier, same slash-stripped base URL and the same scopes
      up to order, or different identities. */
  lemma IdentityIsExact(c: JibitConfig, s: ServiceConfig, d: JibitConfig, t: ServiceConfig)
    requires Identifier(s.credentials).Some? && Identifier(t.credentials).Some?
    requires NulFree(c, s) && NulFree(d, t)
    ensures Identity(c, s) == Identity(d, t) <==> SameCredentialScope(c, s, d, t)
  {
    ScopeByComponents(c, s, d, t);
    hide SameCredentialScope;
    IdentityEqualIff(c, s, d, t);
    ComponentsNulFree(c, s);
    ComponentsNulFree(d, t);
    SortedEqualIff(s.scopes, t.scopes);
    var xs, ys := Components(c, s), Components(d, t);
    assert xs[0] == Identifier(s.credentials).value && xs[1] == BaseUrl(c, s) && xs[2..] == Sorted(s.scopes);
    assert ys[0] == Identifier(t.credentials).value && ys[1] == BaseUrl(d, t) && ys[2..] == Sorted(t.scopes);
  }

  /** A NUL inside a scope: one scope and two scopes share an identity. */
  lemma NulInScopeCollides(c: JibitConfig, credentials: Credentials)
    requires Identifier(credentials).Some?
    ensures
      var one := ServiceConfig(credentials, None, ["a" + [NUL] + "b"]);
      var two := ServiceConfig(credentials, None, ["a", "b"]);
      Identity(c, one) == Identity(c, two) && !SameCredentialScope(c, one, c, two)
  {
    var one := ServiceConfig(credentials, None, ["a" + [NUL] + "b"]);
    var two := ServiceConfig(credentials, None, ["a", "b"]);
    assert Sorted(["b"]) == ["b"];
    assert ["a", "b"][1..] == ["b"];
    assert Sorted(["a", "b"]) == ["a", "b"];
    var id, url := Identifier(credentials).value, BaseUrl(c, one);
    SplitOfAppend("a", "b", NUL);
    SplitWithout("a", NUL);
    SplitWithout("b", NUL);
    assert SplitAll(["b"], NUL) == ["b"];
    assert SplitAll(["a", "b"], NUL) == ["a", "b"];
    assert SplitAll(one.scopes, NUL) == ["a", "b"];
    assert Components(c, one)[1..][1..] == Sorted(one.scopes) == one.scopes;
    assert Components(c, two)[1..][1..] == two.scopes;
    IdentityEqualIff(c, one, c, two);
    assert |one.scopes| == 1 && |multiset(one.scopes)| == 1 && |multiset(two.scopes)| == 2;
  }
}

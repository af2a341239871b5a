/**
 * Request resolution and the response cache of `_hacer_solicitud`:
 * default-parameter merging for chart endpoints, the cache key, the
 * freshness window, and what is fetched, returned and stored.
 * The HTTP call is a function from the request to its outcome and the
 * clock reading is a parameter.
 */
module Requests {
  import opened Wrappers
  import opened JsonValues
  import opened Dicts

  const BaseUrl: string := "https://api.blockchain.info"

  /** The fixed request headers: a browser-like client of the service's own site. */
  const Headers: Dict<string> := [
    ("accept", "*/*"),
    ("accept-language", "es-ES,es;q=0.9,en;q=0.8"),
    ("origin", "https://www.blockchain.com"),
    ("referer", "https://www.blockchain.com/"),
    ("user-agent", "Mozilla/5.0 (Windows NT 10.0; Win64; x64) AppleWebKit/537.36")
  ]

  /** The six defaults merged under the caller's parameters on chart endpoints. */
  const Defaults: Dict<string> := [
    ("timespan", "1year"),
    ("sampled", "true"),
    ("metadata", "false"),
    ("daysAverageString", "1d"),
    ("cors", "true"),
    ("format", "json")
  ]

  const DefaultCacheDuration: int := 3600

  lemma DefaultKeys()
    ensures Keys(Defaults) == ["timespan", "sampled", "metadata", "daysAverageString", "cors", "format"]
    ensures DistinctKeys(Defaults)
  {
    assert Keys(Defaults) == ["timespan", "sampled", "metadata", "daysAverageString", "cors", "format"];
  }

  // ---------------------------------------------------------------------
  // Substring test

  predicate OccursAt(s: string, sub: string, i: nat) {
    i + |sub| <= |s| && s[i..i + |sub|] == sub
  }

  /** Python's `sub in s` for strings. */
  function ContainsSub(s: string, sub: string): bool
    decreases |s|
  {
    if sub <= s then true
    else if s == [] then false
    else ContainsSub(s[1..], sub)
  }

  /** `sub in s` holds exactly when `sub` occurs in `s` at some position. */
  lemma ContainsSubMeans(s: string, sub: string)
    ensures ContainsSub(s, sub) <==> exists i: nat :: i <= |s| && OccursAt(s, sub, i)
  {
    if ContainsSub(s, sub) {
      var i := FoundAt(s, sub);
    } else if i: nat :| i <= |s| && OccursAt(s, sub, i) {
      Occurs(s, sub, i);
    }
  }

  lemma {:induction false} FoundAt(s: string, sub: string) returns (i: nat)
    requires ContainsSub(s, sub)
    ensures i <= |s| && OccursAt(s, sub, i)
    decreases |s|
  {
    if sub <= s {
      i := 0;
    } else {
      var j := FoundAt(s[1..], sub);
      assert s[1..][j..j + |sub|] == s[j + 1..j + 1 + |sub|];
      i := j + 1;
    }
  }

  lemma {:induction false} Occurs(s: string, sub: string, i: nat)
    requires i <= |s| && OccursAt(s, sub, i)
    ensures ContainsSub(s, sub)
    decreases |s|
  {
    if !(sub <= s) {
      assert i != 0;
      assert s[1..][i - 1..i - 1 + |sub|] == s[i..i + |sub|];
      Occurs(s[1..], sub, i - 1);
    }
  }

  predicate IsChartsEndpoint(endpoint: string) {
    ContainsSub(endpoint, "charts")
  }

  // ---------------------------------------------------------------------
  // Parameter resolution

  /**
   * The parameters actually sent: on an endpoint containing "charts" a
   * copy of the defaults updated with the caller's parameters, elsewhere
   * the caller's parameters as they are. On a chart endpoint the keys are
   * distinct whatever the caller passed; elsewhere they are as distinct
   * as the caller's.
   */
  function ResolveParams(endpoint: string, params: Dict<string>): (r: Dict<string>)
    ensures IsChartsEndpoint(endpoint) || DistinctKeys(params) ==> DistinctKeys(r)
  {
    if IsChartsEndpoint(endpoint) then
      DefaultKeys();
      UpdateDistinct(Defaults, params);
      Update(Defaults, params)
    else params
  }

  /**
   * Precedence: on a chart endpoint every caller key keeps the caller's
   * value and every other key has its default value (or is absent when it
   * is not a default key); other endpoints get the caller's parameters
   * unchanged.
   */
  lemma ResolveParamsPrecedence(endpoint: string, params: Dict<string>, k: string)
    requires DistinctKeys(params)
    ensures IsChartsEndpoint(endpoint) ==>
      Get(ResolveParams(endpoint, params), k)
        == if HasKey(params, k) then Get(params, k) else Get(Defaults, k)
    ensures !IsChartsEndpoint(endpoint) ==> ResolveParams(endpoint, params) == params
  {
    UpdateGet(Defaults, params, k);
  }

  /**
   * Key order on a chart endpoint: the six default keys in their order,
   * then the caller's keys that are not defaults, in the caller's order,
   * with no key twice.
   */
  lemma ResolveParamsOrder(endpoint: string, params: Dict<string>)
    requires IsChartsEndpoint(endpoint)
    ensures Keys(ResolveParams(endpoint, params))
         == Keys(Defaults) + NewKeys(Keys(Defaults), Keys(params))
    ensures DistinctKeys(ResolveParams(endpoint, params))
  {
    assert ResolveParams(endpoint, params) == Update(Defaults, params);
    UpdateKeys(Defaults, params);
    DefaultKeys();
    UpdateDistinct(Defaults, params);
  }

  // ---------------------------------------------------------------------
  // The cache key: endpoint + "_" + str(params)

  /** The quote Python's repr picks: double quotes only when the text holds ' and no ". */
  function QuoteFor(s: string): char {
    if '\'' in s && '"' !in s then '"' else '\''
  }

  /** How one character is written inside a repr quoted with `q`. */
  function EscapeChar(c: char, q: char): string {
    if c == '\\' then "\\\\"
    else if c == q then ['\\', q]
    else if c == '\n' then "\\n"
    else if c == '\r' then "\\r"
    else if c == '\t' then "\\t"
    else [c]
  }

  /** The body of a Python string repr quoted with `q`. */
  function Escaped(s: string, q: char): string {
    if s == [] then "" else EscapeChar(s[0], q) + Escaped(s[1..], q)
  }

  /**
   * Reads back the body of a string repr: a backslash and the character
   * after it stand for one character, any other character for itself.
   */
  function Unescape(e: string): string
    decreases |e|
  {
    if e == [] then ""
    else if e[0] == '\\' && |e| >= 2 then
      var c := e[1];
      [if c == 'n' then '\n' else if c == 'r' then '\r' else if c == 't' then '\t' else c] + Unescape(e[2..])
    else [e[0]] + Unescape(e[1..])
  }

  lemma {:induction false} UnescapeEscaped(s: string, q: char)
    requires q == '\'' || q == '"'
    ensures Unescape(Escaped(s, q)) == s
    decreases |s|
  {
    if s != [] {
      UnescapeEscaped(s[1..], q);
      UnescapeChar(s[0], q, Escaped(s[1..], q));
      assert s == [s[0]] + s[1..];
    }
  }

  /** Reading back one escaped character and what follows it. */
  lemma UnescapeChar(c: char, q: char, rest: string)
    requires q == '\'' || q == '"'
    ensures Unescape(EscapeChar(c, q) + rest) == [c] + Unescape(rest)
  {
    var e := EscapeChar(c, q);
    if |e| == 2 {
      assert (e + rest)[0] == '\\' && (e + rest)[1] == e[1];
      assert (e + rest)[2..] == rest;
    } else {
      assert (e + rest)[0] == c && c != '\\';
      assert (e + rest)[1..] == rest;
    }
  }

  /**
   * `repr(s)` for a string `s`: the text between matching quotes, from
   * which the string can be read back, so different strings have
   * different reprs.
   */
  function PyRepr(s: string): (r: string)
    ensures |r| >= 2 && r[0] == r[|r| - 1] && r[0] in "'\""
    ensures Unescape(r[1..|r| - 1]) == s
  {
    var q := QuoteFor(s);
    UnescapeEscaped(s, q);
    var r := [q] + Escaped(s, q) + [q];
    assert r[1..|r| - 1] == Escaped(s, q);
    r
  }

  function RenderItems(d: Dict<string>): string {
    if d == [] then ""
    else
      var item := PyRepr(d[0].0) + ": " + PyRepr(d[0].1);
      if |d| == 1 then item else item + ", " + RenderItems(d[1..])
  }

  /**
   * `str(d)` for a dict of strings: its items in insertion order between
   * braces, the first key's repr right after the opening brace.
   */
  function Render(d: Dict<string>): (r: string)
    ensures |r| >= 2 && r[0] == '{' && r[|r| - 1] == '}'
    ensures d != [] ==> PyRepr(d[0].0) <= r[1..]
  {
    var items := RenderItems(d);
    if d != [] then
      RenderFirstItem(d);
      Braced(items, PyRepr(d[0].0));
      "{" + items + "}"
    else
      Braced(items, "");
      "{" + items + "}"
  }

  /** Between braces, a prefix of the text comes right after the opening one. */
  lemma Braced(items: string, k: string)
    requires k <= items
    ensures var r := "{" + items + "}";
      |r| >= 2 && r[0] == '{' && r[|r| - 1] == '}' && k <= r[1..]
  {
    var r := "{" + items + "}";
    assert r[1..] == items + "}";
    PrefixOfConcat(items, "}");
    PrefixTrans(k, items, items + "}");
  }

  lemma RenderFirstItem(d: Dict<string>)
    requires d != []
    ensures PyRepr(d[0].0) <= RenderItems(d)
  {
    var k := PyRepr(d[0].0);
    var item := k + ": " + PyRepr(d[0].1);
    PrefixOfConcat(k, ": ");
    PrefixOfConcat(k + ": ", PyRepr(d[0].1));
    PrefixTrans(k, k + ": ", item);
    if |d| > 1 {
      PrefixOfConcat(item, ", ");
      PrefixOfConcat(item + ", ", RenderItems(d[1..]));
      PrefixTrans(item, item + ", ", RenderItems(d));
      PrefixTrans(k, item, RenderItems(d));
    }
  }

  lemma PrefixOfConcat(a: string, b: string)
    ensures a <= a + b
  {
    assert (a + b)[..|a|] == a;
  }

  lemma PrefixTrans(a: string, b: string, c: string)
    requires a <= b && b <= c
    ensures a <= c
  {
    assert c[..|b|][..|a|] == c[..|a|];
  }

  /**
   * The cache key: the endpoint, an underscore, then `str` of the
   * resolved parameters, whose first key's repr therefore comes right
   * after `endpoint + "_{"`.
   */
  function CacheKey(endpoint: string, resolved: Dict<string>): (key: string)
    ensures |key| > |endpoint| + 2 && key[..|endpoint|] == endpoint && key[|endpoint|] == '_'
    ensures resolved != [] ==> PyRepr(resolved[0].0) <= key[|endpoint| + 2..]
  {
    var r := Render(resolved);
    var key := endpoint + "_" + r;
    assert key[|endpoint| + 1..] == r;
    assert key[|endpoint| + 2..] == r[1..];
    key
  }

  /**
   * On a chart endpoint the order in which the caller gave default keys
   * does not matter: parameter dicts with the same items, all of them
   * default keys, resolve to the same request and so to the same key.
   */
  lemma CacheKeyIgnoresDefaultKeyOrder(endpoint: string, p1: Dict<string>, p2: Dict<string>)
    requires IsChartsEndpoint(endpoint)
    requires DistinctKeys(p1) && DistinctKeys(p2)
    requires forall k :: Get(p1, k) == Get(p2, k)
    requires forall k :: HasKey(p1, k) ==> HasKey(Defaults, k)
    ensures ResolveParams(endpoint, p1) == ResolveParams(endpoint, p2)
    ensures CacheKey(endpoint, ResolveParams(endpoint, p1)) == CacheKey(endpoint, ResolveParams(endpoint, p2))
  {
    var r1 := ResolveParams(endpoint, p1);
    var r2 := ResolveParams(endpoint, p2);
    ResolveParamsOrder(endpoint, p1);
    ResolveParamsOrder(endpoint, p2);
    forall k | k in Keys(p2) ensures k in Keys(Defaults) {
      assert Get(p2, k).Some?;
      assert HasKey(p1, k);
    }
    forall k | k in Keys(p1) ensures k in Keys(Defaults) {
      assert HasKey(p1, k);
    }
    NewKeysOfSeen(Keys(Defaults), Keys(p1));
    NewKeysOfSeen(Keys(Defaults), Keys(p2));
    forall k ensures Get(r1, k) == Get(r2, k) {
      ResolveParamsPrecedence(endpoint, p1, k);
      ResolveParamsPrecedence(endpoint, p2, k);
      assert HasKey(p1, k) <==> HasKey(p2, k) by {
        assert Get(p1, k).Some? <==> Get(p2, k).Some?;
      }
    }
    SameItems(r1, r2);
  }

  /**
   * Elsewhere the key follows insertion order: parameter dicts whose first
   * names start differently make different keys, even when they hold the
   * same items, so a call with the same parameters in another order
   * misses the entry an earlier call stored.
   */
  lemma CacheKeyFollowsInsertionOrder(endpoint: string, p1: Dict<string>, p2: Dict<string>)
    requires !IsChartsEndpoint(endpoint)
    requires p1 != [] && p1[0].0 != [] && p1[0].0[0] !in ['\\', '\'', '"', '\n', '\r', '\t']
    requires p2 != [] && p2[0].0 != [] && p2[0].0[0] !in ['\\', '\'', '"', '\n', '\r', '\t']
    requires p1[0].0[0] != p2[0].0[0]
    ensures CacheKey(endpoint, ResolveParams(endpoint, p1)) != CacheKey(endpoint, ResolveParams(endpoint, p2))
  {
    FirstKeyChar(endpoint, p1);
    FirstKeyChar(endpoint, p2);
  }

  /** The pools request with "cors" and "timespan" in either order: one dict, two cache keys. */
  lemma PoolsKeyOrderExample(p1: Dict<string>, p2: Dict<string>)
    requires p1 == [("cors", "true"), ("timespan", "1day")]
    requires p2 == [("timespan", "1day"), ("cors", "true")]
    ensures forall k :: Get(p1, k) == Get(p2, k)
    ensures CacheKey("pools", ResolveParams("pools", p1)) != CacheKey("pools", ResolveParams("pools", p2))
  {
    forall k ensures Get(p1, k) == Get(p2, k) {
      GetCons(p1, k);
      GetCons(p1[1..], k);
      GetCons(p2, k);
      GetCons(p2[1..], k);
    }
    NotCharts();
    CacheKeyFollowsInsertionOrder("pools", p1, p2);
  }

  /** The key shows the first character of the first parameter name right after the opening quote. */
  lemma FirstKeyChar(endpoint: string, d: Dict<string>)
    requires d != [] && d[0].0 != []
    requires d[0].0[0] !in ['\\', '\'', '"', '\n', '\r', '\t']
    ensures CacheKey(endpoint, d)[|endpoint| + 3] == d[0].0[0]
  {
    var k := d[0].0;
    var q := QuoteFor(k);
    assert EscapeChar(k[0], q) == [k[0]];
    assert Escaped(k, q) == [k[0]] + Escaped(k[1..], q);
    var rk := PyRepr(k);
    assert rk[1] == k[0];
    var key := CacheKey(endpoint, d);
    assert rk <= key[|endpoint| + 2..];
    assert key[|endpoint| + 2..][1] == key[|endpoint| + 3];
  }

  lemma NotCharts()
    ensures !IsChartsEndpoint("pools")
  {
    assert !("charts" <= "pools");
    assert "pools"[1..] == "ools";
    assert "ools"[1..] == "ols";
    assert "ols"[1..] == "ls";
    assert "ls"[1..] == "s";
    assert "s"[1..] == "";
  }

  // ---------------------------------------------------------------------
  // Fetching and caching

  datatype CacheEntry = CacheEntry(payload: Value, timestamp: int)

  type Cache = map<string, CacheEntry>

  /** What `requests` raises: a non-2xx status, a transport failure, or a body that is not JSON. */
  datatype FetchError = HttpStatus(code: int) | ConnectionFailure | UndecodableBody

  datatype HttpRequest = HttpRequest(url: string, params: Dict<string>, headers: Dict<string>)

  type Reply = Result<Value, FetchError>

  /** The GET sent on a miss. */
  function Outgoing(endpoint: string, resolved: Dict<string>): HttpRequest {
    HttpRequest(BaseUrl + "/" + endpoint, resolved, Headers)
  }

  /** An entry is usable without fetching while it is younger than the cache duration. */
  predicate IsFresh(cache: Cache, key: string, now: int, duration: int) {
    key in cache && now - cache[key].timestamp < duration
  }

  /** What one call returns, which request it sends (if any), and the cache after it. */
  datatype Served = Served(reply: Reply, sent: Option<HttpRequest>, cache: Cache)

  /**
   * One call of `_hacer_solicitud`. `now` is the clock reading taken
   * before the fetch; `network` answers the request it is given. Nothing
   * is sent only when the cache is on and holds a fresh entry under the
   * call's key, and then that entry's payload is returned and the cache is
   * as it was; whatever is sent to the service URL of the endpoint, its
   * answer is what the call returns; with the cache off or after a failure
   * the cache is untouched; the only key a call can add is its own.
   */
  function Serve(cache: Cache, duration: int, endpoint: string, params: Dict<string>,
                 useCache: bool, now: int, network: HttpRequest -> Reply): (o: Served)
    ensures o.sent.None? ==>
      var key := CacheKey(endpoint, ResolveParams(endpoint, params));
      useCache && IsFresh(cache, key, now, duration) && o.reply == Ok(cache[key].payload) && o.cache == cache
    ensures o.sent.Some? ==> o.sent.value.url == BaseUrl + "/" + endpoint && o.reply == network(o.sent.value)
    ensures !useCache || o.reply.Err? ==> o.cache == cache
    ensures o.cache.Keys <= cache.Keys + {CacheKey(endpoint, ResolveParams(endpoint, params))}
  {
    var resolved := ResolveParams(endpoint, params);
    var key := CacheKey(endpoint, resolved);
    if useCache && IsFresh(cache, key, now, duration) then
      Served(Ok(cache[key].payload), None, cache)
    else
      var request := Outgoing(endpoint, resolved);
      var reply := network(request);
      Served(reply, Some(request),
             if useCache && reply.Ok? then cache[key := CacheEntry(reply.value, now)] else cache)
  }

  /** A fresh entry is returned as stored, nothing is sent and the cache is unchanged. */
  lemma ServeHit(cache: Cache, duration: int, endpoint: string, params: Dict<string>,
                 now: int, network: HttpRequest -> Reply)
    requires IsFresh(cache, CacheKey(endpoint, ResolveParams(endpoint, params)), now, duration)
    ensures var o := Serve(cache, duration, endpoint, params, true, now, network);
      && o.reply == Ok(cache[CacheKey(endpoint, ResolveParams(endpoint, params))].payload)
      && o.sent == None
      && o.cache == cache
  {
  }

  /**
   * On a miss, or with the cache off, the resolved request is sent and
   * its outcome returned; a success is stored under the key with the
   * clock reading taken before the fetch (only when the cache is on),
   * an error leaves the cache as it was, stale entry included.
   */
  lemma ServeMiss(cache: Cache, duration: int, endpoint: string, params: Dict<string>,
                  useCache: bool, now: int, network: HttpRequest -> Reply)
    requires !useCache || !IsFresh(cache, CacheKey(endpoint, ResolveParams(endpoint, params)), now, duration)
    ensures var resolved := ResolveParams(endpoint, params);
      var key := CacheKey(endpoint, resolved);
      var o := Serve(cache, duration, endpoint, params, useCache, now, network);
      && o.sent == Some(Outgoing(endpoint, resolved))
      && o.reply == network(Outgoing(endpoint, resolved))
      && (useCache && o.reply.Ok? ==> o.cache == cache[key := CacheEntry(o.reply.value, now)])
      && (!useCache || o.reply.Err? ==> o.cache == cache)
  {
  }

  /** Every key other than the request's own keeps its entry, whatever happens. */
  lemma ServeOnlyTouchesItsKey(cache: Cache, duration: int, endpoint: string, params: Dict<string>,
                               useCache: bool, now: int, network: HttpRequest -> Reply, other: string)
    requires other != CacheKey(endpoint, ResolveParams(endpoint, params))
    ensures var o := Serve(cache, duration, endpoint, params, useCache, now, network);
      (other in o.cache <==> other in cache) && (other in cache ==> o.cache[other] == cache[other])
  {
  }

  /** With the cache off the cache is neither read nor written. */
  lemma ServeWithoutCache(c1: Cache, c2: Cache, duration: int, endpoint: string, params: Dict<string>,
                          now: int, network: HttpRequest -> Reply)
    ensures var o1 := Serve(c1, duration, endpoint, params, false, now, network);
      var o2 := Serve(c2, duration, endpoint, params, false, now, network);
      o1.reply == o2.reply && o1.sent == o2.sent && o1.cache == c1 && o2.cache == c2
  {
  }

  /**
   * After a successful fetch at `t1`, the same call at `t2` within the
   * cache duration sends nothing and returns the same payload, whatever
   * the network would now answer.
   */
  lemma RepeatWithinWindowHits(cache: Cache, duration: int, endpoint: string, params: Dict<string>,
                               t1: int, t2: int, net1: HttpRequest -> Reply, net2: HttpRequest -> Reply)
    requires Serve(cache, duration, endpoint, params, true, t1, net1).sent.Some?
    requires Serve(cache, duration, endpoint, params, true, t1, net1).reply.Ok?
    requires t2 - t1 < duration
    ensures var o1 := Serve(cache, duration, endpoint, params, true, t1, net1);
      var o2 := Serve(o1.cache, duration, endpoint, params, true, t2, net2);
      o2.sent == None && o2.reply == o1.reply && o2.cache == o1.cache
  {
  }

  /**
   * Once the duration has passed since a call at `t1` that found no fresh
   * entry, the same call at a later `t2` sends the resolved request again,
   * whether the first fetch succeeded or failed.
   */
  lemma RepeatAfterExpiryRefetches(cache: Cache, duration: int, endpoint: string, params: Dict<string>,
                                   t1: int, t2: int, net1: HttpRequest -> Reply, net2: HttpRequest -> Reply)
    requires !IsFresh(cache, CacheKey(endpoint, ResolveParams(endpoint, params)), t1, duration)
    requires t1 <= t2 && t2 - t1 >= duration
    ensures var o1 := Serve(cache, duration, endpoint, params, true, t1, net1);
      var o2 := Serve(o1.cache, duration, endpoint, params, true, t2, net2);
      o2.sent == Some(Outgoing(endpoint, ResolveParams(endpoint, params)))
  {
  }
}

/**
 * The client object: the response cache it keeps between calls and the
 * operations that go through it. Every method is proved to leave the
 * object in the state the pure functions of `Requests`, `Charts` and
 * `Pools` describe, so the lemmas proved there apply to it.
 */
module Api {
  import opened Wrappers
  import opened JsonValues
  import opened Dicts
  import opened Requests
  import opened Frames
  import opened Charts
  import opened Pools

  class BlockchainInfoApi {
    /** How many seconds a stored response stays usable. */
    const cacheDuration: int
    /** Responses already fetched, by cache key, with the time they were fetched. */
    var cache: Cache

    constructor (cacheDuration: int)
      ensures this.cacheDuration == cacheDuration
      ensures cache == map[]
    {
      this.cacheDuration := cacheDuration;
      cache := map[];
    }

    /** A client built without an argument: responses are kept for an hour. */
    constructor WithDefaultDuration()
      ensures cacheDuration == DefaultCacheDuration
      ensures cache == map[]
    {
      cacheDuration := DefaultCacheDuration;
      cache := map[];
    }

    /**
     * One request through the cache (`_hacer_solicitud`). `now` is the
     * clock reading, `network` the server; `sent` is the GET that went
     * out, if any. A failed fetch is returned as `Err`, where the source
     * re-raises it.
     */
    method Request(endpoint: string, params: Dict<string>, useCache: bool, now: int,
                   network: HttpRequest -> Reply)
      returns (reply: Reply, sent: Option<HttpRequest>)
      modifies this
      ensures Served(reply, sent, cache)
           == Serve(old(cache), cacheDuration, endpoint, params, useCache, now, network)
    {
      var resolved := params;
      if IsChartsEndpoint(endpoint) {
        resolved := Update(Defaults, params);
      }
      var key := CacheKey(endpoint, resolved);
      if useCache && key in cache {
        var entry := cache[key];
        if now - entry.timestamp < cacheDuration {
          return Ok(entry.payload), None;
        }
      }
      var request := HttpRequest(BaseUrl + "/" + endpoint, resolved, Headers);
      reply := network(request);
      sent := Some(request);
      if reply.Ok? && useCache {
        cache := cache[key := CacheEntry(reply.value, now)];
      }
    }

    /**
     * `obtener_grafico`: the table of one chart metric. Whatever goes
     * wrong (a failed request, no data, a payload that cannot be turned
     * into a table) gives the empty table; the cache is updated as the
     * request left it.
     */
    method Chart(name: string, params: Dict<string>, now: int, network: HttpRequest -> Reply)
      returns (df: Frame, sent: Option<HttpRequest>)
      modifies this
      ensures var route := RouteChart(name, params);
        var o := Serve(old(cache), cacheDuration, route.endpoint, route.params, true, now, network);
        cache == o.cache && sent == o.sent && df == ChartResult(o.reply)
    {
      var endpoint, routed;
      if name == FeeLevelMetric {
        endpoint, routed := FeeLevelEndpoint, FeeLevelParams;
      } else {
        endpoint, routed := "charts/" + name, params;
      }
      assert Route(endpoint, routed) == RouteChart(name, params);
      var reply;
      reply, sent := Request(endpoint, routed, true, now, network);
      df := ChartTable(reply);
    }

    /** The guards of `obtener_grafico` after the request, and the table built when they pass. */
    static method ChartTable(reply: Reply) returns (df: Frame)
      ensures df == ChartResult(reply)
    {
      if reply.Err? {
        return EmptyFrame;
      }
      var payload := reply.value;
      if !payload.JObj? || !Truthy(payload) {
        return EmptyFrame;
      }
      var values := Get(payload.members, "values");
      if values.None? || !Truthy(values.value) {
        return EmptyFrame;
      }
      var processed := ProcessChartData(values.value);
      df := processed.GetOr(EmptyFrame);
    }

    /**
     * `obtener_pools`: the hash-rate share table. The caller's parameters
     * get a default "timespan" and a forced "cors" before the request;
     * entries of the accepted shapes are collected and sorted by size,
     * largest first; any failure gives the empty table.
     */
    method PoolShares(params: Dict<string>, now: int, network: HttpRequest -> Reply)
      returns (table: PoolTable, sent: Option<HttpRequest>)
      modifies this
      ensures var o := Serve(old(cache), cacheDuration, PoolsEndpoint, PoolParams(params), true, now, network);
        cache == o.cache && sent == o.sent && table == PoolResult(o.reply)
    {
      var p := params;
      if !HasKey(p, "timespan") {
        p := Put(p, "timespan", PoolsDefaultTimespan);
      }
      p := Put(p, "cors", "true");
      var reply;
      reply, sent := Request(PoolsEndpoint, p, true, now, network);
      if reply.Err? {
        return [], sent;
      }
      var rows: Dict<Value> := [];
      if reply.value.JObj? {
        rows := CollectPools(reply.value.members);
      }
      if rows == [] {
        return [], sent;
      }
      var sizes := Sizes(rows);
      if sizes.None? {
        return [], sent;
      }
      table := SortDesc(sizes.value);
    }

    /** `obtener_precio_mercado`: the "market-price" chart. */
    method MarketPrice(params: Dict<string>, now: int, network: HttpRequest -> Reply)
      returns (df: Frame, sent: Option<HttpRequest>)
      modifies this
      ensures var o := Serve(old(cache), cacheDuration, "charts/market-price", params, true, now, network);
        cache == o.cache && sent == o.sent && df == ChartResult(o.reply)
    {
      assert RouteChart("market-price", params) == Route("charts/market-price", params);
      df, sent := Chart("market-price", params, now, network);
    }

    /** `obtener_cap_mercado`: the "market-cap" chart. */
    method MarketCap(params: Dict<string>, now: int, network: HttpRequest -> Reply)
      returns (df: Frame, sent: Option<HttpRequest>)
      modifies this
      ensures var o := Serve(old(cache), cacheDuration, "charts/market-cap", params, true, now, network);
        cache == o.cache && sent == o.sent && df == ChartResult(o.reply)
    {
      assert RouteChart("market-cap", params) == Route("charts/market-cap", params);
      df, sent := Chart("market-cap", params, now, network);
    }

    /** `obtener_volumen_comercio`: the "trade-volume" chart. */
    method TradeVolume(params: Dict<string>, now: int, network: HttpRequest -> Reply)
      returns (df: Frame, sent: Option<HttpRequest>)
      modifies this
      ensures var o := Serve(old(cache), cacheDuration, "charts/trade-volume", params, true, now, network);
        cache == o.cache && sent == o.sent && df == ChartResult(o.reply)
    {
      assert RouteChart("trade-volume", params) == Route("charts/trade-volume", params);
      df, sent := Chart("trade-volume", params, now, network);
    }

    /** `obtener_transacciones`: the "n-transactions" chart. */
    method Transactions(params: Dict<string>, now: int, network: HttpRequest -> Reply)
      returns (df: Frame, sent: Option<HttpRequest>)
      modifies this
      ensures var o := Serve(old(cache), cacheDuration, "charts/n-transactions", params, true, now, network);
        cache == o.cache && sent == o.sent && df == ChartResult(o.reply)
    {
      assert RouteChart("n-transactions", params) == Route("charts/n-transactions", params);
      df, sent := Chart("n-transactions", params, now, network);
    }
  }
}

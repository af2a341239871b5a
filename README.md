# Blockchain.info client: a Dafny model

This project models the data client behind a Streamlit dashboard of
Blockchain.info statistics: the `BlockchainInfoAPI` class in `main.py`.
It covers four parts:

- **Requests and the response cache.** Every call goes through `_hacer_solicitud`.
  - On endpoints whose name contains `charts`, the caller's parameters are merged over six defaults.
  - The request is keyed by `endpoint + "_" + str(params)`.
  - It is answered from an in-memory cache while the stored copy is younger than the cache duration.
  - Otherwise it is fetched from `https://api.blockchain.info` and, on success, stored with the clock reading taken before the fetch.
- **Charts** (`obtener_grafico`, `_procesar_datos_grafico`).
  - A metric name is routed to its chart endpoint. `mempool-state-by-fee-level` has a route and parameters of its own.
  - The `values` of the answer become a table: `x` becomes the index, and the first numeric column is renamed `y` when there is no `y`.
  - Any failure gives the empty table instead of an exception.
- **Mining pools** (`obtener_pools`).
  - `timespan` defaults to `4days` and `cors` is forced to `true`.
  - Entries that are an object holding `relativeSize`, or a bare number, are kept.
  - They are sorted by size, largest first, and any failure gives the empty table.
- **The catalogue.** 34 metric ids in six categories, with a Spanish display name for each. A display lookup falls back to the id itself.

Modules:

- `Wrappers`: `Option`, `Result`.
- `JsonValues`: parsed JSON with Python truthiness and `isinstance(v, (int, float))`.
- `Dicts`: Python dicts as ordered association lists, with `d[k] = v`, `dict.update` and `.get`.
- `Requests`: defaults, parameter resolution, the cache key, and `Serve`, the pure specification of one cached request.
- `Frames`: the part of `pandas.DataFrame` the reshaping uses.
- `Charts`: routing and chart payload to table.
- `Pools`: the pool loop, `CollectPools`, and the descending sort.
- `Catalogue`: the categories and display names.
- `Api`: the class `BlockchainInfoApi`. It holds the cache as a mutable field. Each method is proved to move the object to exactly the state that `Serve` and the `Charts`/`Pools` functions describe, so every lemma about those functions applies to the object.

Time and the network are parameters:

- `now` is the clock reading `time.time()` takes at `main.py:86`, in whole seconds: it and the stored timestamps are integers.
- `network` maps the outgoing `HttpRequest` (URL, parameters, headers) to a parsed body or a failure.
- Methods also return `sent`, the request that went out if any, so "no fetch on a cache hit" can be stated.

Nothing here was executed. The contracts of the members in the model table below are proved by the Dafny verifier; the prose around them is not.

### Two consequences of the code

- **The cache key depends on parameter order.** The key is built at `main.py:85` from `str(params)`, which lists the items in insertion order.
  - `Requests.CacheKeyIgnoresDefaultKeyOrder` proves the order does not matter on chart endpoints when every caller key is a default key: the merge over the defaults at `main.py:80-83` then fixes the order.
  - `Requests.CacheKeyFollowsInsertionOrder` and `Requests.PoolsKeyOrderExample` show that elsewhere the same items in another order can give another key. The lemma covers parameter dicts whose first names start with different characters, none of them a quote, a backslash or a newline, tab or carriage return. For `pools`, `cors` then `timespan` and the reverse order make two keys, so the second call misses the first call's entry.
- **The chart index is not sorted.** At `main.py:112-114` the index is the `x` values in payload order; nothing sorts it (`Charts.ChartFrameOfRecords`).

## Model

| member | source | states |
|---|---|---|
| Dicts.Get | main.py:155-156 | a lookup such as `info['relativeSize']` (and `datos['values']` at line 133) finds a value exactly when the key is present, and the pair found is in the dict |
| Dicts.Put | main.py:144-146 | `d[k] = v`: `k` now maps to `v`, every other key keeps its value, an existing key keeps its position and a new key goes last, distinct keys stay distinct |
| Dicts.Update | main.py:81-82 | `d.update(other)`: `other`'s items assigned one by one in their order; what that means for lookups, key order and distinctness is stated by `Dicts.UpdateGet`, `Dicts.UpdateKeys` and `Dicts.UpdateDistinct` |
| Dicts.NoDupAppend | main.py:166-188 | a concatenation has no repeats iff neither part has and the parts share no element |
| Dicts.UpdateGet | main.py:81-82 | after `d.update(other)` a key of `other` has `other`'s value and any other key keeps `d`'s |
| Dicts.UpdateKeys | main.py:81-82 | after `d.update(other)` the keys are `d`'s keys followed by `other`'s new keys in `other`'s order |
| Dicts.UpdateDistinct | main.py:81-82 | `update` keeps keys distinct |
| Dicts.SameItems | main.py:85 | two dicts with distinct keys, the same key order and the same lookups are equal, so they render to the same string |
| JsonValues.Truthy | main.py:133 | Python truthiness of a parsed value; the values it rejects are listed by `JsonValues.FalsyValues` |
| JsonValues.IsIntOrFloat | main.py:157 | `isinstance(v, (int, float))`: a number, or a bool since a Python bool is an int |
| JsonValues.FalsyValues | main.py:133 | the values `not` holds of are exactly null, false, zero and the empty string, list and object |
| Requests.DefaultKeys | main.py:27-34 | the six default keys in their order, with no key twice |
| Requests.ContainsSubMeans | main.py:80 | `"charts" in endpoint` holds iff `charts` occurs at some position of the endpoint |
| Requests.ResolveParams | main.py:80-83 | the parameters sent have distinct keys on every chart endpoint, and elsewhere whenever the caller's do |
| Requests.ResolveParamsPrecedence | main.py:80-83 | on chart endpoints each caller key keeps the caller's value and each other key takes its default or is absent; other endpoints get the caller's parameters unchanged |
| Requests.ResolveParamsOrder | main.py:80-83 | on chart endpoints the resolved keys are the six defaults in order, then the caller's non-default keys in the caller's order, with no repeats |
| Requests.PyRepr | main.py:85 | `repr` of a string lies between matching quotes and the string can be read back from it, so different strings have different reprs |
| Requests.Render | main.py:85 | `str` of a dict is braced, and the repr of its first key comes right after the opening brace |
| Requests.CacheKey | main.py:85 | the key starts with the endpoint and an underscore, and the repr of the first parameter name follows `_{` |
| Requests.CacheKeyIgnoresDefaultKeyOrder | main.py:80-85 | on chart endpoints, parameters with the same items, all default keys, resolve to the same request and the same cache key whatever their order |
| Requests.CacheKeyFollowsInsertionOrder | main.py:85 | off chart endpoints, parameters whose first names start with different characters give different keys, each an ordinary character: not a quote, backslash, newline, tab or carriage return |
| Requests.PoolsKeyOrderExample | main.py:85 | the pools parameters `cors, timespan` and `timespan, cors` are equal as dicts but give different cache keys |
| Requests.FirstKeyChar | main.py:85 | the key shows the first character of the first parameter name right after the opening quote, when that is an ordinary character: not a quote, backslash, newline, tab or carriage return |
| Requests.Serve | main.py:76-107 | nothing is sent only when the cache is on and holds a fresh entry under the call's key, and then that entry's payload is returned and the cache is unchanged; a request sent goes to the endpoint's URL and its answer is returned; with the cache off or after a failure the cache is unchanged; the only key a call can add is its own |
| Requests.ServeHit | main.py:88-91 | with the cache on and a fresh entry, the stored payload is returned, nothing is sent and the cache is unchanged |
| Requests.IsFresh | main.py:88-90 | the cache-hit test: an entry is stored under the key and its age, `now` minus its timestamp, is below the cache duration |
| Requests.ServeMiss | main.py:93-107 | otherwise the resolved GET with the fixed headers is sent and its outcome returned; a success is stored under the key with the pre-fetch clock only when the cache is on; a failure leaves the cache as it was, stale entry included |
| Requests.ServeOnlyTouchesItsKey | main.py:99-101 | every other cache key keeps its entry |
| Requests.ServeWithoutCache | main.py:88 | with the cache off the cache is neither read nor written: the outcome is the same whatever the cache holds |
| Requests.RepeatWithinWindowHits | main.py:86-101 | after a successful fetch at `t1`, the same call at `t2` with `t2 - t1` below the duration sends nothing and returns the same payload, whatever the network would now answer |
| Requests.RepeatAfterExpiryRefetches | main.py:86-96 | a call that found no fresh entry at `t1` is sent again at any `t2` at least one duration later, whether the first fetch succeeded or failed |
| Frames.ColumnNames | main.py:110 | the columns of a table built from records name each key once, and a key is a column iff some record has it |
| Frames.ColumnNamesOrder | main.py:110 | the columns are exactly the keys met reading the records in turn, and one column comes before another iff its name first occurs earlier in that reading |
| Frames.FromRecords | main.py:110 | one row per record on a positional index, one column per key, a missing key giving a null cell |
| Frames.SetIndexX | main.py:112-113 | a table with `x` takes the `x` cells as its index and drops that column; one without is unchanged; the row count is kept |
| Frames.RenameFirstNumeric | main.py:116-119 | exactly the first numeric column is renamed `y`; every other column and all cells are unchanged; with no numeric column nothing changes |
| Frames.IsNumericColumn | main.py:117 | the columns `select_dtypes(include=['number'])` keeps: only numbers or nulls, and at least one number |
| Frames.NonNumericColumns | main.py:117 | a column holding a bool or a string, or holding only nulls, is not numeric, so it is never renamed `y` |
| Frames.RenameKeepsNamesDistinct | main.py:116-119 | renaming into an absent `y` keeps column names distinct |
| Frames.RenameOnlyAddsY | main.py:116-119 | the rename introduces no name other than `y` |
| Frames.Reshape | main.py:109-121 | the reshaped table is well shaped, keeps its row count and index, and has no `x` column |
| Charts.RouteChart | main.py:125-129 | both routes are chart endpoints; the fee-level metric is sent with exactly the defaults; any other metric goes to `charts/<name>` with the caller's parameters |
| Charts.RouteChartResolves | main.py:125-131 | both routes are chart endpoints; the fee-level metric goes to its own endpoint with exactly the six defaults whatever the caller passed; any other name goes to `charts/<name>` with the caller's values over the defaults |
| Charts.FeeLevelResolvesToDefaults | main.py:127 | merging `{'cors': 'true'}` over the defaults gives the defaults themselves |
| Charts.ProcessChartData | main.py:109-121 | a table comes out iff `values` is a list of objects, and it is well shaped, has one row per object and no `x` column |
| Charts.ChartFrame | main.py:133-140 | every result is well shaped, and a non-object or falsy payload gives the empty table |
| Charts.ChartResult | main.py:123-140 | every result is well shaped, and a failed request gives the empty table |
| Charts.ChartResultNoData | main.py:133-140 | a failed request, a falsy or non-object payload, a missing `values`, an empty `values` or a `values` that is not a list of objects (the source raises on some such shapes and builds a table from others, see `Charts.ProcessChartData` under Left out) give the empty table, and every result is well shaped |
| Charts.ChartFrameOfRecords | main.py:109-121 | for a non-empty list of objects: one row per object; `x` becomes the index in payload order and is no longer a column; with no `y` the first numeric column becomes `y`; with a `y` nothing is renamed; `y` ends up a column iff some object had one or some non-`x` column is numeric |
| Charts.ReshapeIndex | main.py:112-114 | where the index of a chart table comes from |
| Charts.ReshapeColumns | main.py:116-119 | which columns a chart table has, and when `y` is among them |
| Charts.RenameYIff | main.py:116-119 | without a `y` column the rename produces one iff some column is numeric |
| Pools.PoolParams | main.py:144-146 | `timespan` is set to `4days` only when absent, `cors` is always `true`, every other parameter is kept |
| Pools.Collected | main.py:151-158 | the table of `df.at` assignments has each pool once and no more rows than entries |
| Pools.Accepted | main.py:155-158 | the loop's filter: an object holding `relativeSize`, or a bare int or float (a bool included, as `isinstance` counts it) |
| Pools.SizeCell | main.py:155-158 | the cell stored for an accepted entry: its `relativeSize` value, or the bare number itself |
| Pools.CollectPools | main.py:151-158 | the loop builds exactly `Collected(entries)`, the table of `df.at` assignments |
| Pools.CollectedKeys | main.py:153-158 | a pool is in the table iff some entry with that name has an accepted shape, and the table has each pool once |
| Pools.CollectedValue | main.py:155-158 | an accepted entry contributes its `relativeSize`, or itself when it is a bare number |
| Pools.Sizes | main.py:160 | converting the column row by row succeeds iff every cell is an int or float, and then gives each row's pool name, in row order, with the numeric value of its cell |
| Pools.InsertDesc | main.py:160 | inserting into a descending table keeps it descending and adds exactly that row |
| Pools.SortDesc | main.py:160 | the sorted table is in non-increasing size order and is a permutation of its input |
| Pools.PoolTableOf | main.py:151-160 | the table for a payload is sorted largest first, empty for a non-object and never longer than the payload |
| Pools.PoolResult | main.py:142-164 | the result is sorted largest first, and a failed request gives the empty table |
| Pools.PoolTableSound | main.py:142-164 | the table is sorted largest first, and each row is a pool of the payload with an accepted entry carrying that size |
| Pools.PoolTableComplete | main.py:151-160 | when every accepted entry carries a number, every such pool appears with its size, and there is one row per kept pool |
| Pools.TwoShapesExample | main.py:153-160 | a nested entry and a bare entry are both kept, largest first |
| Catalogue.ChartCategories | main.py:166-188 | six categories under distinct names, 34 ids in all, no id repeated within or across categories, every id with a display name |
| Catalogue.CategoryNamesNoDup | main.py:166-188 | the six category names, the keys of the dict the dashboard lists, are distinct |
| Catalogue.PartitionIff | main.py:166-188 | the flattened catalogue repeats no id iff no category repeats one and no two categories share one |
| Catalogue.InAllIds | main.py:166-188 | an id is in the flattened catalogue iff it is in some category |
| Catalogue.CategoriesNoDup | main.py:166-188 | no category lists an id twice |
| Catalogue.CategoriesDisjoint | main.py:166-188 | no two categories share an id |
| Catalogue.Total | main.py:350 | the category lengths sum to 34 |
| Catalogue.NamedIds | main.py:39-74 | every id of every category is a key of the display-name table |
| Catalogue.DisplayName | main.py:459 | what is shown for an id is one of the descriptive names or the id itself |
| Catalogue.DisplayNameOfCatalogued | main.py:459 | a catalogued id is a key of the table and its lookup gives the mapped name; an id that is not a key is shown as itself |
| Api.BlockchainInfoApi.constructor | main.py:18-37 | a new client has the given cache duration and an empty cache |
| Api.BlockchainInfoApi.WithDefaultDuration | main.py:18-37 | a client made without an argument keeps responses for 3600 seconds and starts with an empty cache |
| Api.BlockchainInfoApi.Request | main.py:76-107 | the reply, the request sent and the new cache are exactly those `Serve` gives for the old cache |
| Api.BlockchainInfoApi.Chart | main.py:123-140 | the cache and the request sent are those of the routed request through the cache, and the table is `ChartResult` of its outcome |
| Api.BlockchainInfoApi.ChartTable | main.py:133-140 | the guards after the request and the processing give exactly `ChartResult` of the outcome |
| Api.BlockchainInfoApi.PoolShares | main.py:142-164 | the cache and the request sent are those of `pools` with the adjusted parameters through the cache, and the table is `PoolResult` of its outcome |
| Api.BlockchainInfoApi.MarketPrice | main.py:190-191 | the `charts/market-price` request through the cache, and its table |
| Api.BlockchainInfoApi.MarketCap | main.py:193-194 | the `charts/market-cap` request through the cache, and its table |
| Api.BlockchainInfoApi.TradeVolume | main.py:196-197 | the `charts/trade-volume` request through the cache, and its table |
| Api.BlockchainInfoApi.Transactions | main.py:199-200 | the `charts/n-transactions` request through the cache, and its table |

## Left out

- **The HTTP call itself.** `requests.get`, `raise_for_status` and `.json()` are the `network` parameter. A non-2xx status, a transport failure and an undecodable body are the three `FetchError` cases.
- **Logging.** Log calls have no effect on any result.
- **The Streamlit dashboard.** Page layout, widgets, session state, Plotly figures and CSV/Excel export are presentation through foreign libraries. Only the catalogue facts they rely on are modelled: the sum of category lengths and the `.get` fallback.
- **`pd.to_datetime`.** The index is kept as the raw `x` values (epoch seconds), in payload order, not converted to timestamps.
- Charts.ChartFrameOfRecords: `pd.to_datetime(df.index, unit='s')` at `main.py:114` raises on some `x` values, such as non-numeric strings or epochs past the range pandas' timestamps cover (milliseconds instead of seconds, say). In the source that exception ends in the empty table at `main.py:137-140`; the model keeps every `x` value and gives the table the contract describes.
- **`params=None`.** The parameters are always a dict, so the `None` case is the empty dict. The wrappers and the dashboard never pass `None`.
- **Floating-point numbers.** JSON numbers are exact reals. Rounding, NaN and the distinction between int and float are not modelled. In the pool filter a bool counts as an int, as `isinstance` does (`Pools.Accepted`); a chart column of bools is not numeric, as for `select_dtypes` (`Frames.NonNumericColumns`).
- **Sub-second clock readings.** `time.time()` returns a float, but `now` and the stored timestamps are integers, so the freshness test `ahora - timestamp < self.duracion_cache` (`main.py:86-90`) is modelled only at whole-second resolution.
- **Python `repr` escapes.** Only backslash, quote, newline, carriage return and tab are escaped. Other control and non-printable characters, which `repr` writes as `\x..` or `\u....`, are left as they are.
- **Cache-key injectivity.** That different resolved parameters give different keys is not proved. Only the order-related facts above are.
- Charts.ProcessChartData: only a `values` that is a list of objects becomes a table; every other shape gives the empty table. pandas builds a table from some of those shapes: an object of lists (`{"x": [...], "y": [...]}`, one column per member), a list of scalars or a list of lists (integer-labelled columns). It raises on others, such as an object of scalars, and only those end in the empty table in the source.
- Charts.ChartResultNoData: a `values` that is a list of scalars, a list of lists or an object of lists gives the empty table here, but the source returns a table built from it; `{"values": [1, 2]}`, for one, gives a two-row table whose column `0` is renamed `y`. Only the shapes pandas raises on, such as an object of scalars, end in the empty table in the source.
- Pools.Sizes: a kept cell that is not a number is treated as making the sort fail, giving the empty table. The most ordinary such cell is a null `relativeSize` next to numeric ones: pandas sorts it as NaN, places it last and keeps every pool, where the model empties the whole table. Others are a string or an object under `relativeSize`; pandas may still sort a column of, say, only strings.
- Pools.SortDesc: the order of pools with equal sizes is not modelled. pandas' default sort is not stable, and the contract states only the descending order and the permutation.
- **Repeated member names in a JSON object.** `json.loads` keeps the last value of a repeated name, while `Dicts.Get` finds the first. Objects are modelled as member lists that may repeat names; the lemmas about pool payloads require distinct names, and the chart lemmas read `values` with the first-found rule.
- **Memoisation of the client.** `@st.cache_resource` keeps one client per session; the model creates clients with the constructor.

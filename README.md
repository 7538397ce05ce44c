# GrafanaAPI request logic, modelled in Dafny

This project models the request logic of the GrafanaAPI market-data service. That logic sits between two stores and the dashboards:

- the relational store, which holds the asset dimension and intraday price fact rows;
- the snapshot cache, which holds JSON lists written by outside producers.

Four pieces are modelled:

- **Price and comparison series** (`asset_timeseries_service.py`).
  - The default `[from, to]` window.
  - The single-symbol price series. For a stock it falls back to a window ending at the symbol's last timestamp.
  - The multi-symbol comparison series. Rows are grouped by `(asset_type, symbol)` in first-seen order, each group is rebased to 100 at its first non-null close, and groups with no usable base are dropped.
- **Latest-batch cache reader** (`asset_service.py`). It fetches, decodes and checks for a list. For stocks it turns each numeric epoch-millisecond `datetime` into a timestamp. Any failure gives a one-record placeholder.
- **Top-movers cache reader** (`asset_top_movers_service.py`). It follows the same degraded-mode pattern. It also coerces the `return_1d` and `volume_usd` strings to numbers and derives `signed_return` for the `all` class.
- **Symbol parsing of the comparison endpoint** (`routers/assets.py`). The parameter is split on commas, each piece is trimmed and upper-cased, and blank pieces are dropped.

## How the stores and the runtime are modelled

- **Relational store:** a table `seq<Row>` (`RowSource`). The price and comparison queries are each a filter with closed `BETWEEN` bounds followed by an `ORDER BY` sort. The `max(snapshot_ts)` query is an aggregate over the symbol's stock rows. The series methods return the list of queries they issue, so "no further query is sent" can be stated.
- **Cache:** `Store = string -> StoreReply`. A reply is an exception (`StoreError`), an absent key (`Missing`) or a text (`Raw`).
- **Abstract parsers:** `json.loads` is a `Decoder = string -> Option<Json>` and `float(str)` is a `Parser = string -> Option<real>`. Both are left abstract and passed in as parameters.
- **Clock:** `datetime.now(timezone.utc)` is the integer parameter `now`. Row timestamps and query windows are integer seconds. The stock reader's converted instants are real seconds (`ms / 1000`), so they keep fractions of a second.
- **HTTP outcomes:** `Outcome` is `Ok | InvalidArgument | NotFound`, standing for a result, HTTP 400 and HTTP 404. Each carries the handler's detail text.
- **Snapshots:** a snapshot is `Data(items) | Degraded(message)`. `Rendered` gives the list that goes on the wire.
- **Escaping exceptions:** in the top-movers loop, an exception raised outside any `try` is the outcome `Raised(at, fault)`. It records which record raised and the exception class.
- **Python types:**
  - Python's `bool` passes `isinstance(v, (int, float))` and unary minus, so a JSON boolean counts as a number (`Cache.NumericValue`).
  - The stock reader writes a datetime object back into the record. `Json.JTime` stands for that object.
- **Loops:** loops that build lists or dicts are methods with loop invariants. Each is proved equal to a specification function, and the properties are lemmas about those functions.

`_load_top_movers_from_cache` runs its loop (lines 36-55) outside any `try`. So a record that is not an object, or, under `all`, a record that lacks `return_1d`, or a non-crypto record whose `return_1d` is neither a number nor a string `float` accepts, ends the request with a server error instead of the placeholder. The model makes this the outcome `TopMovers.Served.Raised`.

## Model

| member | source | states |
|---|---|---|
| `RowSource.Sort` | GrafanaAPI/app/services/asset_timeseries_service.py:151 | ORDER BY returns the same rows, each as many times, in (asset_type, symbol, snapshot_ts) order |
| `RowSource.Filter` | GrafanaAPI/app/services/asset_timeseries_service.py:44-46 | WHERE keeps each row that satisfies the condition as often as the table holds it, and no other row |
| `RowSource.OrderedSameKeyAscending` | GrafanaAPI/app/services/asset_timeseries_service.py:151 | rows of one asset in ORDER BY order are ascending by timestamp |
| `RowSource.SelectSeriesSpec` | GrafanaAPI/app/services/asset_timeseries_service.py:32-47 | the price query returns exactly the rows of that type and symbol inside the closed window, ascending by timestamp |
| `RowSource.InvertedWindowSelectsNothing` | GrafanaAPI/app/services/asset_timeseries_service.py:46 | a window with from after to selects no row |
| `RowSource.SelectLastTsSpec` | GrafanaAPI/app/services/asset_timeseries_service.py:64-70 | `max(snapshot_ts)` is NULL exactly when the symbol has no stock row, and otherwise the timestamp of one of its rows and at least that of every other |
| `RowSource.SelectComparisonSpec` | GrafanaAPI/app/services/asset_timeseries_service.py:139-151 | the comparison query returns exactly the rows whose symbol is listed and whose timestamp is in the window, in ORDER BY order |
| `AssetTimeseries.DefaultWindow` | GrafanaAPI/app/services/asset_timeseries_service.py:9-18 | an absent `to` is `now`; an absent `from` is exactly seven days before the possibly defaulted `to`; given values pass through |
| `AssetTimeseries.DefaultWindowKeepsInverted` | GrafanaAPI/app/services/asset_timeseries_service.py:14-18 | no `from <= to` check: inverted bounds are kept as given |
| `AssetTimeseries.FallbackWindow` | GrafanaAPI/app/services/asset_timeseries_service.py:85-87 | the fallback window ends at the last timestamp and has the original window's length |
| `AssetTimeseries.BuildSeries` | GrafanaAPI/app/services/asset_timeseries_service.py:103-124 | the header is the first row's; there is one point per row, in row order, with the row's timestamp and its close, volume and volume_usd copied, NULLs kept |
| `AssetTimeseries.SeriesFor` | GrafanaAPI/app/services/asset_timeseries_service.py:103-124 | a non-empty price query result becomes a series that describes those rows, carries the queried type and symbol, and is ascending by timestamp |
| `AssetTimeseries.StockFallback` | GrafanaAPI/app/services/asset_timeseries_service.py:64-101 | with no last stock timestamp only the max query is sent and the answer is NotFound "No data at all for this symbol"; otherwise the price query is re-run over the window ending at the last timestamp with the original length, and it is NotFound exactly when that query is empty |
| `AssetTimeseries.GetPriceSeries` | GrafanaAPI/app/services/asset_timeseries_service.py:21-124 | see the list after this table |
| `AssetTimeseries.CleanSymbolsSpec` | GrafanaAPI/app/services/asset_timeseries_service.py:132 | the cleaned symbols are stripped and non-blank, no more than the input, and none exactly when every input is blank |
| `AssetTimeseries.CleanSymbolsIdentity` | GrafanaAPI/app/services/asset_timeseries_service.py:132 | cleaning a list of stripped non-blank symbols leaves it unchanged |
| `AssetTimeseries.PositionsSpec` | GrafanaAPI/app/services/asset_timeseries_service.py:167-169 | the positions of a key are exactly the rows with that key, ascending |
| `AssetTimeseries.RowsOfKeySpec` | GrafanaAPI/app/services/asset_timeseries_service.py:166-169 | a group holds exactly its key's rows, in their input order |
| `AssetTimeseries.FirstSeenOrder` | GrafanaAPI/app/services/asset_timeseries_service.py:166-173 | the dict's keys are distinct and are exactly the keys of some row; an earlier key has its first row earlier |
| `AssetTimeseries.FirstSeenCovers` | GrafanaAPI/app/services/asset_timeseries_service.py:167-169 | every row's key is among the dict's keys |
| `AssetTimeseries.GroupRows` | GrafanaAPI/app/services/asset_timeseries_service.py:166-169 | the `setdefault(...).append` loop builds the keys in first-seen order and, for each key, its group |
| `AssetTimeseries.FirstCloseSpec` | GrafanaAPI/app/services/asset_timeseries_service.py:174-179 | the base is None exactly when no row has a close, and otherwise the close of the first row with one |
| `AssetTimeseries.FindBase` | GrafanaAPI/app/services/asset_timeseries_service.py:174-179 | the scan with `break` finds that base |
| `AssetTimeseries.WithCloseStartsAtBase` | GrafanaAPI/app/services/asset_timeseries_service.py:184-187 | the first row that is not skipped is the base row |
| `AssetTimeseries.NormalizedBase` | GrafanaAPI/app/services/asset_timeseries_service.py:189 | `(base / base) * 100.0` is exactly 100 |
| `AssetTimeseries.GroupPointsSpec` | GrafanaAPI/app/services/asset_timeseries_service.py:174-199 | a group with no close or a zero base emits nothing; otherwise each row with a close emits, in order, its key, name, timestamp and `close / base * 100`; the first emitted value is 100 |
| `AssetTimeseries.ComparisonScenario` | GrafanaAPI/app/services/asset_timeseries_service.py:174-199 | closes 10, 20, 30 give 100, 200, 300; closes 5, NULL, 15 give 100, 300 |
| `AssetTimeseries.EmitGroup` | GrafanaAPI/app/services/asset_timeseries_service.py:174-199 | the per-group loops emit exactly that group's points |
| `AssetTimeseries.EmitAll` | GrafanaAPI/app/services/asset_timeseries_service.py:171-199 | the loop over the dict emits the groups' points group after group, in key order |
| `AssetTimeseries.GetIndexedSeries` | GrafanaAPI/app/services/asset_timeseries_service.py:126-205 | see the list after this table |
| `AssetTimeseries.GroupPointsKeyed` | GrafanaAPI/app/services/asset_timeseries_service.py:191-198 | every point of a group carries the group's asset_type and symbol |
| `AssetTimeseries.PointsOfFlatten` | GrafanaAPI/app/services/asset_timeseries_service.py:171-199 | with distinct keys, the points of one asset in the concatenated groups are its own group's points, or none when it is not a key |
| `AssetTimeseries.IndexAllIsolatesGroups` | GrafanaAPI/app/services/asset_timeseries_service.py:171-199 | an asset's points in the series are exactly its own rebased group, whatever the other groups hold |
| `AssetTimeseries.DroppedGroupChangesNothing` | GrafanaAPI/app/services/asset_timeseries_service.py:181-182 | removing a group that emits nothing from the key list leaves the series unchanged |
| `Cache.NumericValue` | GrafanaAPI/app/services/asset_service.py:64 | a value passes `isinstance(v, (int, float))` exactly when it is a number or a boolean; a boolean counts as 1 or 0 |
| `Cache.CachedList` | GrafanaAPI/app/services/asset_service.py:20-37 | a list comes back exactly when the get succeeds with a non-empty text that decodes to a JSON list, and it is that list unchanged |
| `Cache.Rendered` | GrafanaAPI/app/services/asset_service.py:12-15 | a placeholder goes on the wire as one record whose only key is `message` |
| `Cache.ErrorRow` | GrafanaAPI/app/services/asset_service.py:12-15 | the placeholder is one record holding only `message`, which is the fixed head "Error loading ", then the class label, then the fixed tail; `_error_row` at asset_top_movers_service.py lines 8-12 has the same shape with its own tail |
| `Cache.ErrorRowInjective` | GrafanaAPI/app/services/asset_top_movers_service.py:8-12 | with the same head and tail, different labels give different messages, so each placeholder names its class |
| `AssetService.Placeholder` | GrafanaAPI/app/services/asset_service.py:12-15 | the placeholder goes on the wire as the single record `{"message": "Error loading <label> data from cache. Please wait a few minutes and refresh the dashboard."}` |
| `AssetService.EpochMsToInstant` | GrafanaAPI/app/services/asset_service.py:8-9 | the instant is `ms / 1000` seconds; it exists exactly when it falls in years 1 through 9999 |
| `AssetService.Stamp` | GrafanaAPI/app/services/asset_service.py:63-65 | a non-object raises, and so does an out-of-range numeric `datetime`; otherwise a numeric `datetime` becomes the timestamp for `ms / 1000`, a non-numeric one leaves the record as it is, and all other fields are kept |
| `AssetService.StampAllSpec` | GrafanaAPI/app/services/asset_service.py:63-67 | the loop succeeds exactly when every record does, and then keeps the length and order, one stamped record per record |
| `AssetService.LoadCrypto` | GrafanaAPI/app/services/asset_service.py:18-37 | the crypto list is returned exactly when the get succeeds with a non-empty text decoding to a list, and it is returned unchanged |
| `AssetService.LoadStock` | GrafanaAPI/app/services/asset_service.py:47-70 | the stock loader's loop computes the stamped list, or None |
| `AssetService.LatestCrypto` | GrafanaAPI/app/services/asset_service.py:40-44 | the crypto placeholder exactly when loading fails, otherwise the decoded list |
| `AssetService.GetLatestStock` | GrafanaAPI/app/services/asset_service.py:73-77 | the stock snapshot, with the "stocks" placeholder on failure |
| `AssetService.LatestStockSpec` | GrafanaAPI/app/services/asset_service.py:47-77 | the "stocks" placeholder exactly when the store raises, the value is missing or empty, it is not a JSON list, or some record raises in the loop; otherwise one stamped record per decoded record, in order |
| `AssetService.NonObjectDegradesStock` | GrafanaAPI/app/services/asset_service.py:63-70 | one non-object record makes the whole stock snapshot the placeholder |
| `AssetService.GetLatestAssets` | GrafanaAPI/app/services/asset_service.py:80-86 | "crypto" and "stock" give their snapshots; any other class is InvalidArgument "Invalid asset_type", not the placeholder |
| `TopMovers.MoversKey` | GrafanaAPI/app/services/asset_top_movers_service.py:16 | the key is `asset:top_movers:` followed by the class |
| `TopMovers.Placeholder` | GrafanaAPI/app/services/asset_top_movers_service.py:8-12 | the placeholder goes on the wire as the single record `{"message": "Error loading <class> top movers from cache. Please wait a few minutes and refresh the dashboard."}` |
| `TopMovers.Coerce` | GrafanaAPI/app/services/asset_top_movers_service.py:37-42 | a string that `float` accepts becomes its number; an unparseable string, any other value and an absent key are left alone; other keys are unchanged |
| `TopMovers.EnrichFaults` | GrafanaAPI/app/services/asset_top_movers_service.py:36-48 | a record raises AttributeError exactly when it is not an object; under `all` it raises KeyError exactly when `return_1d` is missing, and TypeError exactly when a non-crypto `return_1d` is neither a number nor a parseable string |
| `TopMovers.SingleClassAddsNoSignedReturn` | GrafanaAPI/app/services/asset_top_movers_service.py:44 | for crypto or stock every object passes, and no `signed_return` is added or changed |
| `TopMovers.SignedReturnOfAll` | GrafanaAPI/app/services/asset_top_movers_service.py:44-48 | under `all`, `signed_return` is the coerced `return_1d` for a crypto record and its negation for every other record, including one with no `asset_type` |
| `TopMovers.EnrichKeepsOtherFields` | GrafanaAPI/app/services/asset_top_movers_service.py:36-57 | fields other than `return_1d`, `volume_usd` and `signed_return` are kept; the key set grows by `signed_return` under `all` only |
| `TopMovers.EnrichCoerces` | GrafanaAPI/app/services/asset_top_movers_service.py:37-55 | `return_1d` and `volume_usd` each end up as their parsed number when they hold a parseable string, and are unchanged otherwise |
| `TopMovers.SignedReturnExample` | GrafanaAPI/app/services/asset_top_movers_service.py:44-48 | under `all`, a crypto record with return 0.03 has `signed_return` 0.03, and a stock record has -0.03 |
| `TopMovers.EnrichAllSpec` | GrafanaAPI/app/services/asset_top_movers_service.py:36-57 | with no raising record the loop keeps the length and order; otherwise it escapes with the first raising record's exception |
| `TopMovers.LoadTopMovers` | GrafanaAPI/app/services/asset_top_movers_service.py:15-57 | the loader's loop computes the enriched list, None, or the escaping exception |
| `TopMovers.MoversOf` | GrafanaAPI/app/services/asset_top_movers_service.py:18-34 | the placeholder exactly when the store raises, the value is missing or empty, the JSON is invalid, or it is not a list |
| `TopMovers.GetTopMovers` | GrafanaAPI/app/services/asset_top_movers_service.py:60-68 | a class outside crypto, stock and all gets its placeholder without any cache read; a served class reads exactly its own key |
| `TopMovers.MoversOfSpec` | GrafanaAPI/app/services/asset_top_movers_service.py:36-68 | a decoded list is served as one enriched record per record, in order, exactly when no record raises; otherwise the raising record is named |
| `Text.StripSpec` | GrafanaAPI/app/routers/assets.py:54 | `strip` leaves the slice between leading and trailing whitespace, with no whitespace at either end; it is empty exactly when the text is all whitespace |
| `Text.Upper` | GrafanaAPI/app/routers/assets.py:54 | `upper` keeps the length and upper-cases every ASCII letter, leaving the rest |
| `Text.UpperKeepsStripped` | GrafanaAPI/app/routers/assets.py:54 | upper-casing keeps a stripped string stripped |
| `Text.SplitSpec` | GrafanaAPI/app/routers/assets.py:54 | `split(",")` gives one piece more than there are commas, and no piece holds a comma |
| `Text.JoinSplit` | GrafanaAPI/app/routers/assets.py:54 | joining the pieces with the separator gives back the text |
| `AssetsRouter.FlatMapAppend` | GrafanaAPI/app/routers/assets.py:54 | the comprehension over two runs of pieces is the first run's result followed by the second's |
| `AssetsRouter.FlatMapSpec` | GrafanaAPI/app/routers/assets.py:54 | with at most one result per piece: no more results than pieces, each result is some piece's, and none exactly when no piece gives one |
| `AssetsRouter.PieceSpec` | GrafanaAPI/app/routers/assets.py:54 | a piece is dropped exactly when it is blank; a kept one is non-empty, trimmed and has no lower-case letter |
| `AssetsRouter.KeepSpec` | GrafanaAPI/app/routers/assets.py:54 | every parsed symbol is non-empty, trimmed and upper-case; none is parsed exactly when every piece is blank |
| `AssetsRouter.KeepAppend` | GrafanaAPI/app/routers/assets.py:54 | symbols keep the order of their pieces |
| `AssetsRouter.KeepOne` | GrafanaAPI/app/routers/assets.py:54 | one piece gives its trimmed, upper-cased text, or nothing when it is blank |
| `AssetsRouter.ParseSymbolsSpec` | GrafanaAPI/app/routers/assets.py:54 | the symbols number at most the commas plus one, each is non-empty, trimmed and upper-case, and there are none exactly when every comma piece is blank |
| `AssetsRouter.CleaningKeepsParsed` | GrafanaAPI/app/routers/assets.py:54 | the service's cleaning step (asset_timeseries_service.py line 132) leaves the parsed list unchanged |
| `AssetsRouter.ParsedNoneIffAllBlank` | GrafanaAPI/app/routers/assets.py:54 | no symbol is parsed exactly when every comma piece is blank |
| `AssetsRouter.GetAssetsComparison` | GrafanaAPI/app/routers/assets.py:48-55 | the request is InvalidArgument "No symbols provided", with no query, exactly when every comma piece is blank; otherwise one comparison query asks for exactly the parsed list, and the answer is NotFound "No data for given symbols / time range" when it returns no row, NotFound "No valid data for given symbols" when no group survives rebasing, and otherwise the indexed series of the returned rows |

`AssetTimeseries.GetPriceSeries` states:

- An unknown type is InvalidArgument "Invalid asset_type", and no query is sent.
- An empty first window for crypto is NotFound, with no further query.
- An empty first window for a stock is followed by the max-timestamp query:
  - if there is no last timestamp, the result is NotFound "No data at all for this symbol";
  - otherwise a third query runs over a window that ends at the last timestamp and has the same length, and that query is NotFound exactly when it is empty.
- On success the series describes the last query's rows, carries the requested type and symbol, and is ascending by timestamp.

`AssetTimeseries.GetIndexedSeries` states:

- Blank-only symbols give InvalidArgument "No symbols provided", and no query is sent.
- Otherwise exactly one query asks for the cleaned symbols over the default window.
- No rows gives NotFound "No data for given symbols / time range".
- No surviving point gives NotFound "No valid data for given symbols".
- Otherwise the result is every group's points, in first-seen order.

## Left out

- Connections, SQL text and the connection discipline (`db/postgres.py`), the Redis client (`db/redis_client.py`) and configuration (`core/config.py`) are not part of this model. The stores are the table and cache parameters. A relational-store failure, which the source lets propagate, is not modelled.
- The application wiring (`main.py`), `routers/top_movers.py`, the other handlers of `routers/assets.py` and `services/asset_catalog_service.py` are not part of this model. They only delegate, validate enums or copy rows.
- `models/schemas.py` is not part of this model. Response validation there would reject the NULL close prices that the service emits (`PricePoint.close_price` is not optional), so the model follows the service output.
- `Infrastructure/python-etl/fetch_stocks_yf.py` is not part of this model. It is network I/O against a vendor API.
- Floating point is not modelled. Prices and normalized values are exact reals, so IEEE rounding of `close / base * 100` and of `float(...)` conversions is out.
- `json.loads` and `float(str)` are abstract parameters. Their accepted syntax is not modelled. Neither are the non-finite values they can produce (`NaN`, `inf`), which have no real counterpart.
- `datetime.now`, time zones and the `datetime` type are not modelled. Row timestamps are integer seconds, the stock reader's instants are real seconds, and the clock is the parameter `now`.
- `AssetService.EpochMsToInstant`: the range test ignores the rounding to microseconds done by `datetime.fromtimestamp`. The platform's `OverflowError`/`OSError` limits are folded into the same year 1..9999 range.
- Text handling covers ASCII only. `strip` uses ASCII whitespace and `upper` maps a–z. Unicode whitespace and case mappings are out.
- ORDER BY compares strings by code point, i.e. the C collation. A database collation could order asset types and symbols differently, which changes only the group order of the comparison series.
- Rows that tie on every ORDER BY column come back in an order SQL leaves open. The model fixes one order (its insertion sort).
- The stock and top-movers loops mutate the decoded dicts in place. The model builds new lists instead. Since `json.loads` returns fresh objects, nothing else sees them. A mutation made before an exception is discarded with the result, as in the source.
- `TopMovers.Served.Raised` records which record raised and the exception class, but not the message or the resulting HTTP 500 response.
- The HTTP status of a placeholder response (200) is not modelled. Neither is FastAPI's enum check on `/{asset_type}/latest`, which keeps other classes from reaching `get_latest_assets` through that route.
- The `print` logging calls are not modelled.

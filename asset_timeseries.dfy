/**
 * The historical side of the dashboard API: the default query window, the single-symbol
 * price series with its stock fallback, and the multi-symbol comparison series that
 * rebases every symbol to 100 at its first known close.
 *
 * Timestamps are whole seconds; `now` is an input.
 */
module AssetTimeseries {
  import opened Common
  import opened RowSource
  import Text

  /** `timedelta(days=7)` in seconds. */
  const Week: int := 7 * 24 * 60 * 60

  /** A closed query window [lo, hi]; nothing requires lo <= hi. */
  datatype Window = Window(lo: int, hi: int)

  /**
   * The default window: a missing `to` is `now`, a missing `from` is seven days before
   * the (possibly defaulted) `to`; given values pass through, and no order is enforced.
   */
  function DefaultWindow(from: Option<int>, to: Option<int>, now: int): (w: Window)
    ensures w.hi == (if to.Some? then to.value else now)
    ensures from.Some? ==> w.lo == from.value
    ensures from.None? ==> w.hi - w.lo == Week
  {
    var hi := if to.Some? then to.value else now;
    var lo := if from.Some? then from.value else hi - Week;
    Window(lo, hi)
  }

  /** Both bounds given in the wrong order are accepted as they are: no order check is made. */
  lemma DefaultWindowKeepsInverted(from: int, to: int, now: int)
    requires to < from
    ensures DefaultWindow(Some(from), Some(to), now) == Window(from, to)
  {
  }

  /** The stock fallback window: it ends at the last known timestamp and keeps the length. */
  function FallbackWindow(w: Window, lastTs: int): (f: Window)
    ensures f.hi == lastTs
    ensures f.hi - f.lo == w.hi - w.lo
  {
    Window(lastTs - (w.hi - w.lo), lastTs)
  }

  predicate IsAssetType(t: string)
  {
    t == "crypto" || t == "stock"
  }

  /** One point of a price series; a NULL column stays None. */
  datatype Point = Point(ts: int, close: Option<real>, volume: Option<real>, volumeUsd: Option<real>)

  /** A price series: the header of the asset and one point per row. */
  datatype Series = Series(assetType: string, symbol: string, name: Option<string>, points: seq<Point>)

  /** The rows the store answers a row query with. */
  function Answer(table: seq<Row>, q: Query): seq<Row>
    requires !q.LastTsQuery?
  {
    match q
    case SeriesQuery(t, s, lo, hi) => SelectSeries(table, t, s, lo, hi)
    case ComparisonQuery(syms, lo, hi) => SelectComparison(table, syms, lo, hi)
  }

  /**
   * s is the series of rows: the header is the first row's, and there is exactly one
   * point per row, in row order, with its timestamp and its three values copied.
   */
  predicate Describes(s: Series, rows: seq<Row>)
  {
    && rows != []
    && s.assetType == rows[0].assetType
    && s.symbol == rows[0].symbol
    && s.name == rows[0].name
    && |s.points| == |rows|
    && forall i :: 0 <= i < |rows| ==>
         s.points[i] == Point(rows[i].ts, rows[i].close, rows[i].volume, rows[i].volumeUsd)
  }

  /** Builds the series by appending one point per row. */
  method BuildSeries(rows: seq<Row>) returns (s: Series)
    requires rows != []
    ensures Describes(s, rows)
  {
    var first := rows[0];
    var points: seq<Point> := [];
    for i := 0 to |rows|
      invariant |points| == i
      invariant forall j :: 0 <= j < i ==>
        points[j] == Point(rows[j].ts, rows[j].close, rows[j].volume, rows[j].volumeUsd)
    {
      var row := rows[i];
      points := points + [Point(row.ts, row.close, row.volume, row.volumeUsd)];
    }
    s := Series(first.assetType, first.symbol, first.name, points);
  }

  /** The first query of a price-series request. */
  function FirstQuery(assetType: string, symbol: string, from: Option<int>, to: Option<int>, now: int): Query
  {
    var w := DefaultWindow(from, to, now);
    SeriesQuery(assetType, symbol, w.lo, w.hi)
  }

  /** The series answering a price query that found rows: that asset's points, ascending by timestamp. */
  method SeriesFor(table: seq<Row>, q: Query) returns (s: Series)
    requires q.SeriesQuery? && Answer(table, q) != []
    ensures Describes(s, Answer(table, q))
    ensures s.assetType == q.assetType && s.symbol == q.symbol
    ensures forall i, j :: 0 <= i < j < |s.points| ==> s.points[i].ts <= s.points[j].ts
  {
    var rows := SelectSeries(table, q.assetType, q.symbol, q.lo, q.hi);
    SelectSeriesSpec(table, q.assetType, q.symbol, q.lo, q.hi);
    assert rows[0] in rows;
    s := BuildSeries(rows);
  }

  /**
   * The stock fallback after an empty first window: the max-timestamp query, then, when
   * the symbol has rows at all, one more price query over a window of the same length
   * ending at the last timestamp. `tail` lists the queries it sends.
   */
  method StockFallback(table: seq<Row>, symbol: string, w: Window) returns (r: Outcome<Series>, tail: seq<Query>)
    ensures SelectLastTs(table, symbol).None? ==>
      tail == [LastTsQuery(symbol)] && r == NotFound("No data at all for this symbol")
    ensures SelectLastTs(table, symbol).Some? ==>
      var f := FallbackWindow(w, SelectLastTs(table, symbol).value);
      && tail == [LastTsQuery(symbol), SeriesQuery("stock", symbol, f.lo, f.hi)]
      && (Answer(table, tail[1]) == [] <==> r == NotFound("No data for given symbol / time range"))
      && (Answer(table, tail[1]) != [] <==> r.Ok?)
    ensures r.Ok? ==> |tail| == 2 && Describes(r.value, Answer(table, tail[1]))
    ensures r.Ok? ==> r.value.assetType == "stock" && r.value.symbol == symbol
    ensures r.Ok? ==> forall i, j :: 0 <= i < j < |r.value.points| ==> r.value.points[i].ts <= r.value.points[j].ts
  {
    tail := [LastTsQuery(symbol)];
    var lastTs := SelectLastTs(table, symbol);
    if lastTs.None? {
      return NotFound("No data at all for this symbol"), tail;
    }
    var f := FallbackWindow(w, lastTs.value);
    var q := SeriesQuery("stock", symbol, f.lo, f.hi);
    tail := tail + [q];
    var rows := SelectSeries(table, "stock", symbol, f.lo, f.hi);
    if rows == [] {
      return NotFound("No data for given symbol / time range"), tail;
    }
    var s := SeriesFor(table, q);
    r := Ok(s);
  }

  /**
   * The price series of one asset. An unknown asset type fails before any query. An
   * empty window is final for crypto; for a stock it is retried once, over a window of
   * the same length ending at the symbol's last timestamp. `issued` lists the queries
   * sent to the store, in order.
   */
  method GetPriceSeries(table: seq<Row>, assetType: string, symbol: string,
                        from: Option<int>, to: Option<int>, now: int)
    returns (r: Outcome<Series>, issued: seq<Query>)
    ensures !IsAssetType(assetType) ==> r == InvalidArgument("Invalid asset_type") && issued == []
    ensures IsAssetType(assetType) ==>
      1 <= |issued| <= 3 && issued[0] == FirstQuery(assetType, symbol, from, to, now)
    ensures IsAssetType(assetType) && Answer(table, FirstQuery(assetType, symbol, from, to, now)) != [] ==>
      |issued| == 1 && r.Ok?
    ensures assetType == "crypto" && Answer(table, FirstQuery(assetType, symbol, from, to, now)) == [] ==>
      |issued| == 1 && r == NotFound("No data for given symbol / time range")
    ensures assetType == "stock" && Answer(table, FirstQuery(assetType, symbol, from, to, now)) == [] ==>
      |issued| >= 2 && issued[1] == LastTsQuery(symbol)
    ensures assetType == "stock" && Answer(table, FirstQuery(assetType, symbol, from, to, now)) == []
            && SelectLastTs(table, symbol).None? ==>
      |issued| == 2 && r == NotFound("No data at all for this symbol")
    ensures assetType == "stock" && Answer(table, FirstQuery(assetType, symbol, from, to, now)) == []
            && SelectLastTs(table, symbol).Some? ==>
      var w := DefaultWindow(from, to, now);
      && |issued| == 3
      && issued[2].SeriesQuery? && issued[2].assetType == "stock" && issued[2].symbol == symbol
      && issued[2].hi == SelectLastTs(table, symbol).value
      && issued[2].hi - issued[2].lo == w.hi - w.lo
      && (Answer(table, issued[2]) == [] <==> r == NotFound("No data for given symbol / time range"))
      && (Answer(table, issued[2]) != [] <==> r.Ok?)
    ensures r.Ok? ==> issued != [] && Describes(r.value, Answer(table, issued[|issued| - 1]))
    ensures r.Ok? ==> r.value.assetType == assetType && r.value.symbol == symbol
    ensures r.Ok? ==> forall i, j :: 0 <= i < j < |r.value.points| ==> r.value.points[i].ts <= r.value.points[j].ts
  {
    if !IsAssetType(assetType) {
      return InvalidArgument("Invalid asset_type"), [];
    }
    var w := DefaultWindow(from, to, now);
    var q := SeriesQuery(assetType, symbol, w.lo, w.hi);
    issued := [q];
    var rows := SelectSeries(table, assetType, symbol, w.lo, w.hi);
    if rows != [] {
      var s := SeriesFor(table, q);
      return Ok(s), issued;
    }
    if assetType == "crypto" {
      return NotFound("No data for given symbol / time range"), issued;
    }
    var tail;
    r, tail := StockFallback(table, symbol, w);
    issued := issued + tail;
  }

  // ---------------------------------------------------------------------------
  // Multi-symbol comparison
  // ---------------------------------------------------------------------------

  /** One point of the comparison series: the close rebased to 100 at the group's base. */
  datatype IndexedPoint = IndexedPoint(assetType: string, symbol: string, name: Option<string>, ts: int, value: real)

  /** `[s.strip() for s in symbols if s.strip()]`. */
  function CleanSymbols(symbols: seq<string>): seq<string>
    decreases |symbols|
  {
    if symbols == [] then []
    else
      var s := Text.Strip(symbols[0]);
      (if s != [] then [s] else []) + CleanSymbols(symbols[1..])
  }

  /**
   * The cleaned list holds the stripped, non-blank symbols, no more of them than there
   * were, and it is empty exactly when every symbol is blank.
   */
  lemma {:induction false} CleanSymbolsSpec(symbols: seq<string>)
    ensures |CleanSymbols(symbols)| <= |symbols|
    ensures forall i :: 0 <= i < |CleanSymbols(symbols)| ==>
      CleanSymbols(symbols)[i] != [] && Text.Stripped(CleanSymbols(symbols)[i])
    ensures CleanSymbols(symbols) == [] <==> forall i :: 0 <= i < |symbols| ==> Text.Strip(symbols[i]) == []
    decreases |symbols|
  {
    if symbols != [] {
      CleanSymbolsSpec(symbols[1..]);
      assert forall i :: 1 <= i < |symbols| ==> symbols[i] == symbols[1..][i - 1];
      Text.StripSpec(symbols[0]);
    }
  }

  /** Cleaning a list of non-blank stripped symbols changes nothing. */
  lemma {:induction false} CleanSymbolsIdentity(symbols: seq<string>)
    requires forall i :: 0 <= i < |symbols| ==> symbols[i] != [] && Text.Stripped(symbols[i])
    ensures CleanSymbols(symbols) == symbols
    decreases |symbols|
  {
    if symbols != [] {
      Text.StripStripped(symbols[0]);
      CleanSymbolsIdentity(symbols[1..]);
    }
  }

  /** The positions in rows of the rows with key k, ascending. */
  function Positions(rows: seq<Row>, k: Key): seq<nat>
    decreases |rows|
  {
    if rows == [] then []
    else
      var n := |rows| - 1;
      Positions(rows[..n], k) + (if KeyOf(rows[n]) == k then [n] else [])
  }

  /** Positions lists every position of a row with key k exactly once, ascending, and no other. */
  lemma {:induction false} PositionsSpec(rows: seq<Row>, k: Key)
    ensures forall i, j :: 0 <= i < j < |Positions(rows, k)| ==> Positions(rows, k)[i] < Positions(rows, k)[j]
    ensures forall i :: 0 <= i < |Positions(rows, k)| ==>
      Positions(rows, k)[i] < |rows| && KeyOf(rows[Positions(rows, k)[i]]) == k
    ensures forall p :: 0 <= p < |rows| && KeyOf(rows[p]) == k ==> p in Positions(rows, k)
    decreases |rows|
  {
    if rows != [] {
      var n := |rows| - 1;
      PositionsSpec(rows[..n], k);
      assert forall p :: 0 <= p < n ==> rows[..n][p] == rows[p];
    }
  }

  /** The group of key k: the rows with that key, in the order they came. */
  function RowsOfKey(rows: seq<Row>, k: Key): seq<Row>
    decreases |rows|
  {
    if rows == [] then []
    else
      var n := |rows| - 1;
      RowsOfKey(rows[..n], k) + (if KeyOf(rows[n]) == k then [rows[n]] else [])
  }

  /**
   * Rows keep their input order within a group: the group of k is exactly the rows at
   * the positions of k, in ascending order of position.
   */
  lemma {:induction false} RowsOfKeySpec(rows: seq<Row>, k: Key)
    ensures forall i :: 0 <= i < |Positions(rows, k)| ==> Positions(rows, k)[i] < |rows|
    ensures |RowsOfKey(rows, k)| == |Positions(rows, k)|
    ensures forall i :: 0 <= i < |RowsOfKey(rows, k)| ==> RowsOfKey(rows, k)[i] == rows[Positions(rows, k)[i]]
    decreases |rows|
  {
    PositionsSpec(rows, k);
    if rows != [] {
      var n := |rows| - 1;
      RowsOfKeySpec(rows[..n], k);
      assert forall p :: 0 <= p < n ==> rows[..n][p] == rows[p];
    }
  }

  /** The distinct keys of rows in the order of their first row (the dict's insertion order). */
  function FirstSeen(rows: seq<Row>): seq<Key>
    decreases |rows|
  {
    if rows == [] then []
    else
      var n := |rows| - 1;
      var ks := FirstSeen(rows[..n]);
      var k := KeyOf(rows[n]);
      if k in ks then ks else ks + [k]
  }

  /** A key that no row has has an empty group. */
  lemma {:induction false} RowsOfUnseenKey(rows: seq<Row>, k: Key)
    requires k !in FirstSeen(rows)
    ensures RowsOfKey(rows, k) == [] && Positions(rows, k) == []
    decreases |rows|
  {
    if rows != [] {
      RowsOfUnseenKey(rows[..|rows| - 1], k);
    }
  }

  /** A first-seen key has at least one row. */
  lemma {:induction false} SeenKeyHasRows(rows: seq<Row>, k: Key)
    requires k in FirstSeen(rows)
    ensures Positions(rows, k) != []
    decreases |rows|
  {
    var n := |rows| - 1;
    if k in FirstSeen(rows[..n]) {
      SeenKeyHasRows(rows[..n], k);
    }
  }

  /**
   * The first-seen keys are distinct, a key is listed exactly when some row has it,
   * and a key listed earlier has its first row earlier.
   */
  lemma {:induction false} FirstSeenOrder(rows: seq<Row>)
    ensures forall i, j :: 0 <= i < j < |FirstSeen(rows)| ==> FirstSeen(rows)[i] != FirstSeen(rows)[j]
    ensures forall k :: k in FirstSeen(rows) <==> Positions(rows, k) != []
    ensures forall i, j :: 0 <= i < j < |FirstSeen(rows)| ==>
      Positions(rows, FirstSeen(rows)[i])[0] < Positions(rows, FirstSeen(rows)[j])[0]
    decreases |rows|
  {
    forall k ensures k in FirstSeen(rows) <==> Positions(rows, k) != [] {
      if k in FirstSeen(rows) {
        SeenKeyHasRows(rows, k);
      } else {
        RowsOfUnseenKey(rows, k);
      }
    }
    if rows != [] {
      var n := |rows| - 1;
      var pre := rows[..n];
      FirstSeenOrder(pre);
      var ks := FirstSeen(pre);
      var k := KeyOf(rows[n]);
      if k !in ks {
        RowsOfUnseenKey(pre, k);
        assert Positions(rows, k) == [n];
        forall i | 0 <= i < |ks| ensures Positions(rows, ks[i])[0] == Positions(pre, ks[i])[0] < n {
          assert ks[i] in ks;
          PositionsSpec(pre, ks[i]);
        }
      }
    }
  }

  /** Every row's key is among the first-seen keys. */
  lemma FirstSeenCovers(rows: seq<Row>, i: nat)
    requires i < |rows|
    ensures KeyOf(rows[i]) in FirstSeen(rows)
  {
    PositionsSpec(rows, KeyOf(rows[i]));
    FirstSeenOrder(rows);
  }

  /**
   * Groups rows by key as `grouped.setdefault(key, []).append(row)` does: the dict's
   * keys in insertion order, and for each key its group.
   */
  method GroupRows(rows: seq<Row>) returns (order: seq<Key>, groups: map<Key, seq<Row>>)
    ensures order == FirstSeen(rows)
    ensures forall k :: k in groups <==> k in order
    ensures forall k :: k in groups ==> groups[k] == RowsOfKey(rows, k)
  {
    order := [];
    groups := map[];
    for i := 0 to |rows|
      invariant order == FirstSeen(rows[..i])
      invariant forall k :: k in groups <==> k in order
      invariant forall k :: k in groups ==> groups[k] == RowsOfKey(rows[..i], k)
    {
      var row := rows[i];
      var k := KeyOf(row);
      assert rows[..i + 1][..i] == rows[..i];
      if k !in groups {
        RowsOfUnseenKey(rows[..i], k);
        order := order + [k];
      }
      var g := if k in groups then groups[k] else [];
      groups := groups[k := g + [row]];
    }
    assert rows[..|rows|] == rows;
  }

  /**
   * The base price of a group: the close of its first row with a close, or None when
   * no row has one.
   */
  function FirstClose(rows: seq<Row>): Option<real>
    decreases |rows|
  {
    if rows == [] then None
    else if rows[0].close.Some? then rows[0].close
    else FirstClose(rows[1..])
  }

  /** The base is None exactly when no row has a close, and otherwise the close of the first row that has one. */
  lemma {:induction false} FirstCloseSpec(rows: seq<Row>)
    ensures FirstClose(rows).None? <==> forall i :: 0 <= i < |rows| ==> rows[i].close.None?
    ensures FirstClose(rows).Some? ==>
      exists i :: 0 <= i < |rows| && rows[i].close == FirstClose(rows)
                 && forall j :: 0 <= j < i ==> rows[j].close.None?
    decreases |rows|
  {
    if rows != [] && rows[0].close.None? {
      FirstCloseSpec(rows[1..]);
      assert forall i :: 1 <= i < |rows| ==> rows[i] == rows[1..][i - 1];
      if FirstClose(rows).Some? {
        var i :| 0 <= i < |rows[1..]| && rows[1..][i].close == FirstClose(rows)
                 && forall j :: 0 <= j < i ==> rows[1..][j].close.None?;
        assert rows[i + 1].close == FirstClose(rows);
      }
    }
  }

  /** With every row before position i lacking a close and row i having one, the base is row i's close. */
  lemma {:induction false} FirstCloseAt(rows: seq<Row>, i: nat)
    requires i < |rows| && rows[i].close.Some?
    requires forall j :: 0 <= j < i ==> rows[j].close.None?
    ensures FirstClose(rows) == rows[i].close
    decreases i
  {
    if i > 0 {
      FirstCloseAt(rows[1..], i - 1);
    }
  }

  /** The scan for the base price, stopping at the first row with a close. */
  method FindBase(rows: seq<Row>) returns (base: Option<real>)
    ensures base == FirstClose(rows)
  {
    base := None;
    var i := 0;
    while i < |rows|
      invariant 0 <= i <= |rows|
      invariant base.None?
      invariant forall j :: 0 <= j < i ==> rows[j].close.None?
    {
      if rows[i].close.Some? {
        base := rows[i].close;
        FirstCloseAt(rows, i);
        break;
      }
      i := i + 1;
    }
    if base.None? {
      FirstCloseSpec(rows);
    }
  }

  /** The rows of a group that have a close, in order. */
  function WithClose(rows: seq<Row>): (r: seq<Row>)
    ensures forall x :: x in r ==> x.close.Some?
    decreases |rows|
  {
    if rows == [] then []
    else (if rows[0].close.Some? then [rows[0]] else []) + WithClose(rows[1..])
  }

  lemma {:induction false} WithCloseAppend(a: seq<Row>, b: seq<Row>)
    ensures WithClose(a + b) == WithClose(a) + WithClose(b)
    decreases |a|
  {
    if a != [] {
      assert (a + b)[1..] == a[1..] + b;
      WithCloseAppend(a[1..], b);
    } else {
      assert a + b == b;
    }
  }

  /** The first row with a close is the base row. */
  lemma {:induction false} WithCloseStartsAtBase(rows: seq<Row>)
    requires FirstClose(rows).Some?
    ensures WithClose(rows) != [] && WithClose(rows)[0].close == FirstClose(rows)
    decreases |rows|
  {
    if rows[0].close.None? {
      WithCloseStartsAtBase(rows[1..]);
    }
  }

  /** `(close / base) * 100.0`. */
  function Normalized(close: real, base: real): real
    requires base != 0.0
  {
    (close / base) * 100.0
  }

  /** The points of rows (all with a close) rebased to base. */
  function Rebased(k: Key, rows: seq<Row>, base: real): (out: seq<IndexedPoint>)
    requires base != 0.0
    requires forall x :: x in rows ==> x.close.Some?
    ensures |out| == |rows|
  {
    seq(|rows|, i requires 0 <= i < |rows| =>
      IndexedPoint(k.assetType, k.symbol, rows[i].name, rows[i].ts, Normalized(rows[i].close.value, base)))
  }

  lemma RebasedSnoc(k: Key, rows: seq<Row>, x: Row, base: real)
    requires base != 0.0
    requires forall y :: y in rows ==> y.close.Some?
    requires x.close.Some?
    ensures Rebased(k, rows + [x], base) ==
      Rebased(k, rows, base) + [IndexedPoint(k.assetType, k.symbol, x.name, x.ts, Normalized(x.close.value, base))]
  {
    assert forall y :: y in rows + [x] ==> y.close.Some?;
    var l := Rebased(k, rows + [x], base);
    var r := Rebased(k, rows, base) + [IndexedPoint(k.assetType, k.symbol, x.name, x.ts, Normalized(x.close.value, base))];
    assert |l| == |r|;
    forall i | 0 <= i < |l| ensures l[i] == r[i] {
      if i < |rows| {
        assert (rows + [x])[i] == rows[i];
      }
    }
  }

  /** The base row rebases to exactly 100. */
  lemma NormalizedBase(base: real)
    requires base != 0.0
    ensures Normalized(base, base) == 100.0
  {
    assert base / base == 1.0;
  }

  /** The comparison points of one group: each row with a close rebased to the first close. */
  function GroupPoints(k: Key, rows: seq<Row>): seq<IndexedPoint>
  {
    match FirstClose(rows)
    case None => []
    case Some(b) => if b == 0.0 then [] else Rebased(k, WithClose(rows), b)
  }

  /**
   * A group with no close or a zero base gives nothing; otherwise each row with a close,
   * in order, gives one point carrying the group's key, the row's name and timestamp and
   * 100 * close / base, and the base row's point is exactly 100.
   */
  lemma GroupPointsSpec(k: Key, rows: seq<Row>)
    ensures GroupPoints(k, rows) == [] <==> FirstClose(rows).None? || FirstClose(rows).value == 0.0
    ensures GroupPoints(k, rows) != [] ==>
      var out := GroupPoints(k, rows);
      var nn := WithClose(rows);
      var base := FirstClose(rows).value;
      && |out| == |nn|
      && forall i :: 0 <= i < |out| ==>
           out[i] == IndexedPoint(k.assetType, k.symbol, nn[i].name, nn[i].ts, Normalized(nn[i].close.value, base))
    ensures GroupPoints(k, rows) != [] ==> GroupPoints(k, rows)[0].value == 100.0
  {
    if FirstClose(rows).Some? && FirstClose(rows).value != 0.0 {
      WithCloseStartsAtBase(rows);
      NormalizedBase(FirstClose(rows).value);
    }
  }

  /** The normalized values of a list of points. */
  function Values(ps: seq<IndexedPoint>): (vs: seq<real>)
    ensures |vs| == |ps| && forall i :: 0 <= i < |ps| ==> vs[i] == ps[i].value
  {
    seq(|ps|, i requires 0 <= i < |ps| => ps[i].value)
  }

  /**
   * Closes 10, 20, 30 normalize to 100, 200, 300; closes 5, NULL, 15 normalize to 100
   * and 300, the NULL point dropped rather than interpolated.
   */
  lemma ComparisonScenario(t0: int, t1: int, t2: int)
    ensures var btc := Key("crypto", "BTC");
      var rows := [Row("crypto", "BTC", None, t0, Some(10.0), None, None),
                   Row("crypto", "BTC", None, t1, Some(20.0), None, None),
                   Row("crypto", "BTC", None, t2, Some(30.0), None, None)];
      Values(GroupPoints(btc, rows)) == [100.0, 200.0, 300.0]
    ensures var eth := Key("crypto", "ETH");
      var rows := [Row("crypto", "ETH", None, t0, Some(5.0), None, None),
                   Row("crypto", "ETH", None, t1, None, None, None),
                   Row("crypto", "ETH", None, t2, Some(15.0), None, None)];
      Values(GroupPoints(eth, rows)) == [100.0, 300.0]
  {
    var btc := Key("crypto", "BTC");
    var b := [Row("crypto", "BTC", None, t0, Some(10.0), None, None),
              Row("crypto", "BTC", None, t1, Some(20.0), None, None),
              Row("crypto", "BTC", None, t2, Some(30.0), None, None)];
    assert WithClose([b[2]]) == [b[2]] by { assert [b[2]][1..] == []; }
    assert WithClose([b[1], b[2]]) == [b[1], b[2]] by { assert [b[1], b[2]][1..] == [b[2]]; }
    assert WithClose(b) == b by { assert b[1..] == [b[1], b[2]]; }
    GroupPointsSpec(btc, b);
    var eth := Key("crypto", "ETH");
    var e := [Row("crypto", "ETH", None, t0, Some(5.0), None, None),
              Row("crypto", "ETH", None, t1, None, None, None),
              Row("crypto", "ETH", None, t2, Some(15.0), None, None)];
    assert WithClose([e[2]]) == [e[2]] by { assert [e[2]][1..] == []; }
    assert WithClose([e[1], e[2]]) == [e[2]] by { assert [e[1], e[2]][1..] == [e[2]]; }
    assert WithClose(e) == [e[0], e[2]] by { assert e[1..] == [e[1], e[2]]; }
    GroupPointsSpec(eth, e);
  }

  /** Emits the points of one group: base scan, then one point per row with a close. */
  method EmitGroup(k: Key, rows: seq<Row>) returns (out: seq<IndexedPoint>)
    ensures out == GroupPoints(k, rows)
  {
    var base := FindBase(rows);
    if base.None? || base.value == 0.0 {
      return [];
    }
    var b := base.value;
    out := [];
    for i := 0 to |rows|
      invariant out == Rebased(k, WithClose(rows[..i]), b)
    {
      var row := rows[i];
      WithCloseAppend(rows[..i], [row]);
      assert rows[..i + 1] == rows[..i] + [row];
      if row.close.Some? {
        RebasedSnoc(k, WithClose(rows[..i]), row, b);
        out := out + [IndexedPoint(k.assetType, k.symbol, row.name, row.ts, Normalized(row.close.value, b))];
      } else {
        assert WithClose([row]) == [];
      }
    }
    assert rows[..|rows|] == rows;
  }

  /** The points of the groups ks, group after group, where g gives the points of each group. */
  function Concat(g: Key -> seq<IndexedPoint>, ks: seq<Key>): seq<IndexedPoint>
    decreases |ks|
  {
    if ks == [] then [] else Concat(g, ks[..|ks| - 1]) + g(ks[|ks| - 1])
  }

  /** The points of each group of rows. */
  function GroupsOf(rows: seq<Row>): Key -> seq<IndexedPoint>
  {
    k => GroupPoints(k, RowsOfKey(rows, k))
  }

  /** The points of the groups ks of rows, group after group. */
  function Flatten(rows: seq<Row>, ks: seq<Key>): seq<IndexedPoint>
  {
    Concat(GroupsOf(rows), ks)
  }

  /** The whole comparison series of rows: every group, in first-seen order. */
  function IndexAll(rows: seq<Row>): seq<IndexedPoint>
  {
    Flatten(rows, FirstSeen(rows))
  }

  /** Walks the groups in dict order, appending each group's points to the flat series. */
  method EmitAll(rows: seq<Row>, order: seq<Key>, groups: map<Key, seq<Row>>) returns (flat: seq<IndexedPoint>)
    requires forall k :: k in order ==> k in groups && groups[k] == RowsOfKey(rows, k)
    ensures flat == Flatten(rows, order)
  {
    flat := [];
    for i := 0 to |order|
      invariant flat == Flatten(rows, order[..i])
    {
      var k := order[i];
      var pts := EmitGroup(k, groups[k]);
      assert order[..i + 1][..i] == order[..i];
      flat := flat + pts;
    }
    assert order[..|order|] == order;
  }

  /**
   * The comparison series. Blank symbols are dropped first and an empty list fails
   * before any query; no rows, or no point left after dropping the groups without a
   * usable base, is NotFound.
   */
  method GetIndexedSeries(table: seq<Row>, symbols: seq<string>,
                          from: Option<int>, to: Option<int>, now: int)
    returns (r: Outcome<seq<IndexedPoint>>, issued: seq<Query>)
    ensures CleanSymbols(symbols) == [] ==> r == InvalidArgument("No symbols provided") && issued == []
    ensures CleanSymbols(symbols) != [] ==>
      var w := DefaultWindow(from, to, now);
      issued == [ComparisonQuery(CleanSymbols(symbols), w.lo, w.hi)]
    ensures CleanSymbols(symbols) != [] ==>
      var rows := Answer(table, issued[0]);
      && (rows == [] ==> r == NotFound("No data for given symbols / time range"))
      && (rows != [] && IndexAll(rows) == [] ==> r == NotFound("No valid data for given symbols"))
      && (rows != [] && IndexAll(rows) != [] ==> r == Ok(IndexAll(rows)))
  {
    var clean := CleanSymbols(symbols);
    if clean == [] {
      return InvalidArgument("No symbols provided"), [];
    }
    var w := DefaultWindow(from, to, now);
    issued := [ComparisonQuery(clean, w.lo, w.hi)];
    var rows := SelectComparison(table, clean, w.lo, w.hi);
    assert rows == Answer(table, issued[0]);
    if rows == [] {
      return NotFound("No data for given symbols / time range"), issued;
    }
    var order, groups := GroupRows(rows);
    var flat := EmitAll(rows, order, groups);
    assert flat == IndexAll(rows);
    if flat == [] {
      return NotFound("No valid data for given symbols"), issued;
    }
    r := Ok(flat);
  }

  // ---------------------------------------------------------------------------
  // Properties of the comparison series
  // ---------------------------------------------------------------------------

  /** The points of one asset. */
  function PointsOf(ps: seq<IndexedPoint>, k: Key): seq<IndexedPoint>
    decreases |ps|
  {
    if ps == [] then []
    else (if Key(ps[0].assetType, ps[0].symbol) == k then [ps[0]] else []) + PointsOf(ps[1..], k)
  }

  lemma {:induction false} PointsOfAppend(a: seq<IndexedPoint>, b: seq<IndexedPoint>, k: Key)
    ensures PointsOf(a + b, k) == PointsOf(a, k) + PointsOf(b, k)
    decreases |a|
  {
    if a != [] {
      assert (a + b)[1..] == a[1..] + b;
      PointsOfAppend(a[1..], b, k);
    } else {
      assert a + b == b;
    }
  }

  /** Every point of ps belongs to the asset k. */
  predicate Keyed(ps: seq<IndexedPoint>, k: Key)
  {
    forall i :: 0 <= i < |ps| ==> Key(ps[i].assetType, ps[i].symbol) == k
  }

  lemma {:induction false} PointsOfUniform(ps: seq<IndexedPoint>, k: Key)
    requires Keyed(ps, k)
    ensures PointsOf(ps, k) == ps
    decreases |ps|
  {
    if ps != [] {
      PointsOfUniform(ps[1..], k);
    }
  }

  lemma {:induction false} PointsOfForeign(ps: seq<IndexedPoint>, k: Key, k': Key)
    requires k != k'
    requires Keyed(ps, k')
    ensures PointsOf(ps, k) == []
    decreases |ps|
  {
    if ps != [] {
      PointsOfForeign(ps[1..], k, k');
    }
  }

  /** Every point of a group carries the group's key. */
  lemma GroupPointsKeyed(k: Key, rows: seq<Row>)
    ensures Keyed(GroupPoints(k, rows), k)
  {
    GroupPointsSpec(k, rows);
  }

  /** With distinct keys, each group keyed by its own key: an asset's points are its own group's. */
  lemma {:induction false} PointsOfConcat(g: Key -> seq<IndexedPoint>, ks: seq<Key>, k: Key)
    requires forall i, j :: 0 <= i < j < |ks| ==> ks[i] != ks[j]
    requires forall i :: 0 <= i < |ks| ==> Keyed(g(ks[i]), ks[i])
    ensures PointsOf(Concat(g, ks), k) == if k in ks then g(k) else []
    decreases |ks|
  {
    if ks != [] {
      var n := |ks| - 1;
      var last := ks[n];
      var pre := ks[..n];
      assert forall i :: 0 <= i < |pre| ==> pre[i] == ks[i];
      PointsOfConcat(g, pre, k);
      PointsOfAppend(Concat(g, pre), g(last), k);
      assert ks == pre + [last];
      if last == k {
        assert k !in pre;
        PointsOfUniform(g(last), k);
      } else {
        PointsOfForeign(g(last), k, last);
      }
    }
  }

  lemma PointsOfFlatten(rows: seq<Row>, ks: seq<Key>, k: Key)
    requires forall i, j :: 0 <= i < j < |ks| ==> ks[i] != ks[j]
    ensures PointsOf(Flatten(rows, ks), k) == if k in ks then GroupPoints(k, RowsOfKey(rows, k)) else []
  {
    var g := GroupsOf(rows);
    forall i | 0 <= i < |ks| ensures Keyed(g(ks[i]), ks[i]) {
      GroupPointsKeyed(ks[i], RowsOfKey(rows, ks[i]));
    }
    PointsOfConcat(g, ks, k);
  }

  /**
   * Isolation of symbols: the points of any one asset in the comparison series are
   * exactly that asset's own rebased group, whatever the other groups hold, so a
   * dropped group takes nothing from any other.
   */
  lemma IndexAllIsolatesGroups(rows: seq<Row>, k: Key)
    ensures PointsOf(IndexAll(rows), k) == GroupPoints(k, RowsOfKey(rows, k))
  {
    var ks := FirstSeen(rows);
    FirstSeenOrder(rows);
    PointsOfFlatten(rows, ks, k);
    if k !in ks {
      RowsOfUnseenKey(rows, k);
    }
  }

  /** Removing a group that emits nothing from the list of groups leaves the concatenation as it was. */
  lemma {:induction false} DroppedGroupConcat(g: Key -> seq<IndexedPoint>, ks: seq<Key>, i: nat)
    requires i < |ks| && g(ks[i]) == []
    ensures Concat(g, ks[..i] + ks[i + 1..]) == Concat(g, ks)
    decreases |ks|
  {
    var n := |ks| - 1;
    if i == n {
      assert ks[..i] + ks[i + 1..] == ks[..n];
    } else {
      var pre := ks[..n];
      assert pre[i] == ks[i];
      DroppedGroupConcat(g, pre, i);
      var dropped := ks[..i] + ks[i + 1..];
      assert dropped[..|dropped| - 1] == pre[..i] + pre[i + 1..];
      assert dropped[|dropped| - 1] == ks[n];
    }
  }

  /** Removing a group that emits nothing from the list of groups leaves the series as it was. */
  lemma DroppedGroupChangesNothing(rows: seq<Row>, ks: seq<Key>, i: nat)
    requires i < |ks|
    requires GroupPoints(ks[i], RowsOfKey(rows, ks[i])) == []
    ensures Flatten(rows, ks[..i] + ks[i + 1..]) == Flatten(rows, ks)
  {
    DroppedGroupConcat(GroupsOf(rows), ks, i);
  }
}

/**
 * The relational store as the time-series logic sees it: one table of price rows (the
 * join of the asset dimension with the intraday price fact) and the three SELECTs the
 * logic issues against it. WHERE is a filter, BETWEEN a closed interval, ORDER BY a sort.
 */
module RowSource {
  import opened Common

  /** One joined row: (asset_type, symbol, name, snapshot_ts, close_price, volume, volume_usd). */
  datatype Row = Row(
    assetType: string,
    symbol: string,
    name: Option<string>,
    ts: int,
    close: Option<real>,
    volume: Option<real>,
    volumeUsd: Option<real>)

  /** The (asset_type, symbol) pair that identifies an asset. */
  datatype Key = Key(assetType: string, symbol: string)

  function KeyOf(r: Row): Key
  {
    Key(r.assetType, r.symbol)
  }

  /** A request the logic sends to the store; the time-series methods report the ones they issue. */
  datatype Query =
    | SeriesQuery(assetType: string, symbol: string, lo: int, hi: int)
    | LastTsQuery(symbol: string)
    | ComparisonQuery(symbols: seq<string>, lo: int, hi: int)

  /** Lexicographic order on strings by code point (the C collation). */
  predicate StrLeq(a: string, b: string)
    decreases |a|
  {
    a == [] || (b != [] && (a[0] < b[0] || (a[0] == b[0] && StrLeq(a[1..], b[1..]))))
  }

  lemma {:induction false} StrLeqTotal(a: string, b: string)
    ensures StrLeq(a, b) || StrLeq(b, a)
    decreases |a|
  {
    if a != [] && b != [] && a[0] == b[0] {
      StrLeqTotal(a[1..], b[1..]);
    }
  }

  /** ORDER BY asset_type, symbol, snapshot_ts. */
  predicate RowLeq(a: Row, b: Row)
  {
    if a.assetType != b.assetType then StrLeq(a.assetType, b.assetType)
    else if a.symbol != b.symbol then StrLeq(a.symbol, b.symbol)
    else a.ts <= b.ts
  }

  lemma RowLeqTotal(a: Row, b: Row)
    ensures RowLeq(a, b) || RowLeq(b, a)
  {
    StrLeqTotal(a.assetType, b.assetType);
    StrLeqTotal(a.symbol, b.symbol);
  }

  /** Each row is at or before its successor in the ORDER BY order. */
  predicate Ordered(s: seq<Row>)
  {
    |s| <= 1 || (RowLeq(s[0], s[1]) && Ordered(s[1..]))
  }

  function Insert(x: Row, s: seq<Row>): (r: seq<Row>)
    requires Ordered(s)
    ensures Ordered(r)
    ensures multiset(r) == multiset(s) + multiset{x}
    ensures |r| == |s| + 1 && (r[0] == x || (s != [] && r[0] == s[0]))
    decreases |s|
  {
    if s == [] || RowLeq(x, s[0]) then
      [x] + s
    else
      RowLeqTotal(x, s[0]);
      var t := Insert(x, s[1..]);
      assert s == [s[0]] + s[1..];
      assert ([s[0]] + t)[1..] == t;
      [s[0]] + t
  }

  /** The rows of s in ORDER BY order: the same rows, as many times each. */
  function Sort(s: seq<Row>): (r: seq<Row>)
    ensures Ordered(r) && multiset(r) == multiset(s)
    decreases |s|
  {
    if s == [] then []
    else
      assert s == [s[0]] + s[1..];
      Insert(s[0], Sort(s[1..]))
  }

  /** WHERE keep: the rows of the table that satisfy keep, each as often as in the table. */
  function Filter(table: seq<Row>, keep: Row -> bool): (r: seq<Row>)
    ensures forall x :: multiset(r)[x] == if keep(x) then multiset(table)[x] else 0
    decreases |table|
  {
    if table == [] then []
    else
      assert table == [table[0]] + table[1..];
      var rest := Filter(table[1..], keep);
      if keep(table[0]) then [table[0]] + rest else rest
  }

  /** The condition of the single-symbol price query. */
  predicate InSeries(x: Row, assetType: string, symbol: string, lo: int, hi: int)
  {
    x.assetType == assetType && x.symbol == symbol && lo <= x.ts <= hi
  }

  /** Rows ordered by the ORDER BY order that share one key are ascending by timestamp. */
  lemma {:induction false} OrderedSameKeyAscending(s: seq<Row>, k: Key)
    requires Ordered(s)
    requires forall x :: x in s ==> KeyOf(x) == k
    ensures forall i, j :: 0 <= i < j < |s| ==> s[i].ts <= s[j].ts
    decreases |s|
  {
    if |s| > 1 {
      OrderedSameKeyAscending(s[1..], k);
      assert s[0] in s && s[1] in s;
      assert s[0].ts <= s[1].ts;
      forall i, j | 0 <= i < j < |s| ensures s[i].ts <= s[j].ts {
        assert s[j] == s[1..][j - 1];
        if i > 0 {
          assert s[i] == s[1..][i - 1];
        } else if j > 1 {
          assert s[1] == s[1..][0];
        }
      }
    }
  }

  /** The single-symbol price query: matching rows, ORDER BY snapshot_ts. */
  function SelectSeries(table: seq<Row>, assetType: string, symbol: string, lo: int, hi: int): seq<Row>
  {
    Sort(Filter(table, x => InSeries(x, assetType, symbol, lo, hi)))
  }

  /**
   * The price rows of one asset over the closed window [lo, hi], ascending by
   * timestamp: exactly the matching table rows, each as often as in the table.
   */
  lemma SelectSeriesSpec(table: seq<Row>, assetType: string, symbol: string, lo: int, hi: int)
    ensures var rows := SelectSeries(table, assetType, symbol, lo, hi);
      && (forall x :: multiset(rows)[x] == if InSeries(x, assetType, symbol, lo, hi) then multiset(table)[x] else 0)
      && (forall x :: x in rows ==> InSeries(x, assetType, symbol, lo, hi))
      && (forall i, j :: 0 <= i < j < |rows| ==> rows[i].ts <= rows[j].ts)
  {
    var rows := SelectSeries(table, assetType, symbol, lo, hi);
    forall x | x in rows ensures InSeries(x, assetType, symbol, lo, hi) {
      assert multiset(rows)[x] > 0;
    }
    OrderedSameKeyAscending(rows, Key(assetType, symbol));
  }

  /** An inverted window (from after to) selects nothing: no check is needed upstream. */
  lemma InvertedWindowSelectsNothing(table: seq<Row>, assetType: string, symbol: string, lo: int, hi: int)
    requires hi < lo
    ensures SelectSeries(table, assetType, symbol, lo, hi) == []
  {
    SelectSeriesSpec(table, assetType, symbol, lo, hi);
  }

  /** A stock row of the given symbol, the rows `max(snapshot_ts)` ranges over. */
  predicate IsStockOf(x: Row, symbol: string)
  {
    x.assetType == "stock" && x.symbol == symbol
  }

  /** `SELECT max(snapshot_ts)` over the stock rows of a symbol, with no window. */
  function SelectLastTs(table: seq<Row>, symbol: string): Option<int>
    decreases |table|
  {
    if table == [] then None
    else
      var rest := SelectLastTs(table[1..], symbol);
      var x := table[0];
      if IsStockOf(x, symbol) then
        if rest.Some? && rest.value > x.ts then rest else Some(x.ts)
      else rest
  }

  /** The maximum is NULL exactly when the symbol has no stock row, and otherwise the largest of their timestamps. */
  lemma {:induction false} SelectLastTsSpec(table: seq<Row>, symbol: string)
    ensures var r := SelectLastTs(table, symbol);
      && (r.None? <==> forall x :: x in table ==> !IsStockOf(x, symbol))
      && (r.Some? ==> exists x :: x in table && IsStockOf(x, symbol) && x.ts == r.value)
      && (r.Some? ==> forall x :: x in table && IsStockOf(x, symbol) ==> x.ts <= r.value)
    decreases |table|
  {
    if table != [] {
      assert table == [table[0]] + table[1..];
      SelectLastTsSpec(table[1..], symbol);
    }
  }

  /** The condition of the comparison query: symbol among the list, timestamp in [lo, hi]. */
  predicate InComparison(x: Row, symbols: seq<string>, lo: int, hi: int)
  {
    x.symbol in symbols && lo <= x.ts <= hi
  }

  /** The comparison query: matching rows, ORDER BY asset_type, symbol, snapshot_ts. */
  function SelectComparison(table: seq<Row>, symbols: seq<string>, lo: int, hi: int): seq<Row>
  {
    Sort(Filter(table, x => InComparison(x, symbols, lo, hi)))
  }

  /**
   * The rows of the comparison query are ordered by (asset_type, symbol, timestamp) and
   * are exactly the matching table rows, each as often as in the table.
   */
  lemma SelectComparisonSpec(table: seq<Row>, symbols: seq<string>, lo: int, hi: int)
    ensures var rows := SelectComparison(table, symbols, lo, hi);
      && (forall x :: multiset(rows)[x] == if InComparison(x, symbols, lo, hi) then multiset(table)[x] else 0)
      && Ordered(rows)
  {
  }
}

/**
 * The comparison endpoint's handling of its `symbols` parameter: the comma-separated
 * text is split, each piece trimmed and upper-cased, blank pieces dropped, and the list
 * handed to the comparison series.
 */
module AssetsRouter {
  import opened Common
  import opened Text
  import opened RowSource
  import AssetTimeseries

  /** The comprehension `[y for x in xs for y in f(x)]`: the images of the pieces, in order. */
  function FlatMap(f: string -> seq<string>, xs: seq<string>): seq<string>
    decreases |xs|
  {
    if xs == [] then [] else f(xs[0]) + FlatMap(f, xs[1..])
  }

  /** The images of earlier pieces come first: FlatMap distributes over concatenation. */
  lemma {:induction false} FlatMapAppend(f: string -> seq<string>, a: seq<string>, b: seq<string>)
    ensures FlatMap(f, a + b) == FlatMap(f, a) + FlatMap(f, b)
    decreases |a|
  {
    if a == [] {
      assert a + b == b;
    } else {
      FlatMapAppend(f, a[1..], b);
      assert (a + b)[1..] == a[1..] + b;
    }
  }

  /**
   * With at most one image per piece: no more results than pieces, each result the
   * image of some piece, and no result exactly when every piece has no image.
   */
  lemma {:induction false} FlatMapSpec(f: string -> seq<string>, xs: seq<string>)
    requires forall x :: |f(x)| <= 1
    ensures |FlatMap(f, xs)| <= |xs|
    ensures forall i :: 0 <= i < |FlatMap(f, xs)| ==> exists j :: 0 <= j < |xs| && f(xs[j]) == [FlatMap(f, xs)[i]]
    ensures FlatMap(f, xs) == [] <==> forall j :: 0 <= j < |xs| ==> f(xs[j]) == []
    decreases |xs|
  {
    if xs != [] {
      FlatMapSpec(f, xs[1..]);
      var r := FlatMap(f, xs);
      var h := f(xs[0]);
      assert forall j :: 1 <= j < |xs| ==> xs[j] == xs[1..][j - 1];
      forall i | 0 <= i < |r| ensures exists j :: 0 <= j < |xs| && f(xs[j]) == [r[i]] {
        if i < |h| {
          assert h == [r[i]];
        } else {
          assert r[i] == FlatMap(f, xs[1..])[i - |h|];
          var j :| 0 <= j < |xs[1..]| && f(xs[1..][j]) == [r[i]];
          assert xs[j + 1] == xs[1..][j];
        }
      }
    }
  }

  /** One piece of the comprehension: `s.strip().upper()` when `s.strip()` is not blank. */
  function Piece(p: string): (r: seq<string>)
    ensures |r| <= 1
  {
    var s := Strip(p);
    if s != [] then [Upper(s)] else []
  }

  /** A piece is dropped exactly when it is blank, and a kept one is trimmed and upper-case. */
  lemma PieceSpec(p: string)
    ensures Piece(p) == [] <==> Strip(p) == []
    ensures Piece(p) != [] ==> Piece(p)[0] != [] && Stripped(Piece(p)[0]) && NoLower(Piece(p)[0])
  {
    StripSpec(p);
    if Strip(p) != [] {
      UpperKeepsStripped(Strip(p));
    }
  }

  /** `[s.strip().upper() for s in pieces if s.strip()]`. */
  function Keep(pieces: seq<string>): seq<string>
  {
    FlatMap(Piece, pieces)
  }

  /** The symbol list of the comparison endpoint. */
  function ParseSymbols(raw: string): seq<string>
  {
    Keep(Split(raw, ','))
  }

  /** Every kept symbol is non-blank, has no whitespace at either end and no lower-case letter. */
  lemma KeepSpec(pieces: seq<string>)
    ensures |Keep(pieces)| <= |pieces|
    ensures forall i :: 0 <= i < |Keep(pieces)| ==>
      Keep(pieces)[i] != [] && Stripped(Keep(pieces)[i]) && NoLower(Keep(pieces)[i])
    ensures Keep(pieces) == [] <==> forall i :: 0 <= i < |pieces| ==> Strip(pieces[i]) == []
  {
    FlatMapSpec(Piece, pieces);
    forall i | 0 <= i < |pieces| ensures Piece(pieces[i]) == [] <==> Strip(pieces[i]) == [] {
      PieceSpec(pieces[i]);
    }
    var r := Keep(pieces);
    forall i | 0 <= i < |r| ensures r[i] != [] && Stripped(r[i]) && NoLower(r[i]) {
      var j :| 0 <= j < |pieces| && Piece(pieces[j]) == [r[i]];
      PieceSpec(pieces[j]);
    }
  }

  /** The kept symbols of two runs of pieces are those of the first run followed by those of the second. */
  lemma KeepAppend(a: seq<string>, b: seq<string>)
    ensures Keep(a + b) == Keep(a) + Keep(b)
  {
    FlatMapAppend(Piece, a, b);
  }

  /** A single piece gives its trimmed upper-cased text, or nothing when it is blank. */
  lemma KeepOne(p: string)
    ensures Keep([p]) == if Strip(p) == [] then [] else [Upper(Strip(p))]
  {
    assert [p][1..] == [];
    assert FlatMap(Piece, [p]) == Piece(p) + FlatMap(Piece, []);
  }

  /**
   * The parsed symbols: non-blank, trimmed and upper-case, at most one per comma plus
   * one, and none at all exactly when every comma-separated piece is blank.
   */
  lemma ParseSymbolsSpec(raw: string)
    ensures |ParseSymbols(raw)| <= Count(raw, ',') + 1
    ensures forall i :: 0 <= i < |ParseSymbols(raw)| ==>
      ParseSymbols(raw)[i] != [] && Stripped(ParseSymbols(raw)[i]) && NoLower(ParseSymbols(raw)[i])
    ensures ParseSymbols(raw) == [] <==>
      forall i :: 0 <= i < |Split(raw, ',')| ==> Strip(Split(raw, ',')[i]) == []
  {
    KeepSpec(Split(raw, ','));
    SplitSpec(raw, ',');
  }

  /** The service's own cleaning step leaves the parsed list as it is. */
  lemma CleaningKeepsParsed(raw: string)
    ensures AssetTimeseries.CleanSymbols(ParseSymbols(raw)) == ParseSymbols(raw)
  {
    ParseSymbolsSpec(raw);
    AssetTimeseries.CleanSymbolsIdentity(ParseSymbols(raw));
  }

  /** Whether every comma-separated piece of the parameter is blank. */
  predicate AllBlank(raw: string)
  {
    forall i :: 0 <= i < |Split(raw, ',')| ==> Strip(Split(raw, ',')[i]) == []
  }

  /** No symbol is parsed exactly when every piece of the parameter is blank. */
  lemma ParsedNoneIffAllBlank(raw: string)
    ensures ParseSymbols(raw) == [] <==> AllBlank(raw)
  {
    KeepSpec(Split(raw, ','));
  }

  /**
   * `get_assets_comparison`: the request is rejected as having no symbols exactly when
   * every piece of the parameter is blank, and otherwise the parsed list is what the
   * comparison query asks for.
   */
  method GetAssetsComparison(table: seq<Row>, raw: string, from: Option<int>, to: Option<int>, now: int)
    returns (r: Outcome<seq<AssetTimeseries.IndexedPoint>>, issued: seq<Query>)
    ensures AllBlank(raw) <==> r == InvalidArgument("No symbols provided")
    ensures AllBlank(raw) ==> issued == []
    ensures !AllBlank(raw) ==>
      var w := AssetTimeseries.DefaultWindow(from, to, now);
      issued == [ComparisonQuery(ParseSymbols(raw), w.lo, w.hi)]
    ensures !AllBlank(raw) ==>
      var rows := AssetTimeseries.Answer(table, issued[0]);
      && (rows == [] ==> r == NotFound("No data for given symbols / time range"))
      && (rows != [] && AssetTimeseries.IndexAll(rows) == [] ==> r == NotFound("No valid data for given symbols"))
      && (rows != [] && AssetTimeseries.IndexAll(rows) != [] ==> r == Ok(AssetTimeseries.IndexAll(rows)))
  {
    var symbols := ParseSymbols(raw);
    CleaningKeepsParsed(raw);
    ParsedNoneIffAllBlank(raw);
    r, issued := AssetTimeseries.GetIndexedSeries(table, symbols, from, to, now);
  }
}

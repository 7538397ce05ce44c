/**
 * The top-movers snapshot reader: one cached JSON ranking per class (crypto, stock or
 * all), with `return_1d` and `volume_usd` coerced from numeric strings and, for the
 * combined class, a derived `signed_return`. Store failures give the placeholder; a
 * record the loop cannot handle raises, since that loop sits outside any try.
 */
module TopMovers {
  import opened Common
  import opened Cache

  /** `float(s)` on a string, left abstract: None where it raises ValueError. */
  type Parser = string -> Option<real>

  /** The three classes the reader serves. */
  predicate IsClass(cls: string)
  {
    cls == "crypto" || cls == "stock" || cls == "all"
  }

  function MoversKey(cls: string): (k: string)
    ensures |k| == 17 + |cls| && k[..17] == "asset:top_movers:" && k[17..] == cls
  {
    "asset:top_movers:" + cls
  }

  const MessageHead := "Error loading "
  const MessageTail := " top movers from cache. Please wait a few minutes and refresh the dashboard."

  /** `_error_row`: the degraded placeholder, naming the requested class. */
  function Placeholder(cls: string): (r: Snapshot)
    ensures Rendered(r) == [JObj(map["message" := JStr(
      "Error loading " + cls + " top movers from cache. Please wait a few minutes and refresh the dashboard.")])]
  {
    ErrorRow(MessageHead, cls, MessageTail)
  }

  /** Whether the field under key is a string that `float` accepts. */
  predicate Parses(m: Record, key: string, parse: Parser)
  {
    key in m && m[key].JStr? && parse(m[key].s).Some?
  }

  /**
   * The coercion of one field: a string that parses is replaced by its number; a string
   * that does not parse, any other value and an absent key are left as they are.
   */
  function Coerce(m: Record, key: string, parse: Parser): (r: Record)
    ensures r.Keys == m.Keys
    ensures forall k :: k in m && k != key ==> r[k] == m[k]
    ensures Parses(m, key, parse) ==> r[key] == JNum(parse(m[key].s).value)
    ensures !Parses(m, key, parse) ==> r == m
  {
    if Parses(m, key, parse) then m[key := JNum(parse(m[key].s).value)] else m
  }

  /** `item.get("asset_type") == "crypto"`. */
  predicate IsCryptoRecord(m: Record)
  {
    "asset_type" in m && m["asset_type"] == JStr("crypto")
  }

  /**
   * Why the loop raises on a record: `item.get` on a non-object (AttributeError), a
   * missing `return_1d` under `all` (KeyError), or negating a non-number (TypeError).
   */
  datatype Fault = NotAnObject | MissingReturn | NotNegatable

  /** One pass of the loop body: the rewritten record, or the exception it raises. */
  datatype Enriched = Enriched(record: Record) | Fails(fault: Fault)

  /** The loop body on one record, in the order the source performs its steps. */
  function Enrich(item: Json, cls: string, parse: Parser): Enriched
  {
    if !item.JObj? then Fails(NotAnObject)
    else
      var m := Coerce(item.fields, "return_1d", parse);
      if cls != "all" then Enriched(Coerce(m, "volume_usd", parse))
      else if "return_1d" !in m then Fails(MissingReturn)
      else if IsCryptoRecord(m) then
        Enriched(Coerce(m["signed_return" := m["return_1d"]], "volume_usd", parse))
      else
        match NumericValue(m["return_1d"])
        case None => Fails(NotNegatable)
        case Some(x) => Enriched(Coerce(m["signed_return" := JNum(-x)], "volume_usd", parse))
  }

  /** A `return_1d` that unary minus rejects even after coercion. */
  predicate Unnegatable(m: Record, parse: Parser)
    requires "return_1d" in m
  {
    NumericValue(m["return_1d"]).None? && !Parses(m, "return_1d", parse)
  }

  /** Which records raise, and with which exception. */
  lemma EnrichFaults(item: Json, cls: string, parse: Parser)
    ensures Enrich(item, cls, parse) == Fails(NotAnObject) <==> !item.JObj?
    ensures Enrich(item, cls, parse) == Fails(MissingReturn) <==>
      item.JObj? && cls == "all" && "return_1d" !in item.fields
    ensures Enrich(item, cls, parse) == Fails(NotNegatable) <==>
      && item.JObj? && cls == "all" && "return_1d" in item.fields
      && !IsCryptoRecord(item.fields) && Unnegatable(item.fields, parse)
  {
  }

  /**
   * A single-class ranking never raises on an object and gains no `signed_return`: the
   * keys stay the same and a `signed_return` already present is kept.
   */
  lemma SingleClassAddsNoSignedReturn(item: Json, cls: string, parse: Parser)
    requires cls != "all"
    ensures Enrich(item, cls, parse).Enriched? <==> item.JObj?
    ensures Enrich(item, cls, parse).Enriched? ==>
      var r := Enrich(item, cls, parse).record;
      && r.Keys == item.fields.Keys
      && ("signed_return" in r ==> r["signed_return"] == item.fields["signed_return"])
  {
  }

  /**
   * Under `all`, `signed_return` is computed after the coercion of `return_1d`: the
   * coerced value itself for a crypto record, and its negation for every other record,
   * one with no `asset_type` included.
   */
  lemma SignedReturnOfAll(item: Json, parse: Parser)
    requires Enrich(item, "all", parse).Enriched?
    ensures var r := Enrich(item, "all", parse).record;
      && "signed_return" in r && "return_1d" in r
      && r["return_1d"] == Coerce(item.fields, "return_1d", parse)["return_1d"]
      && (IsCryptoRecord(item.fields) ==> r["signed_return"] == r["return_1d"])
      && (!IsCryptoRecord(item.fields) ==>
            NumericValue(r["return_1d"]).Some? && r["signed_return"] == JNum(-NumericValue(r["return_1d"]).value))
  {
    var m := Coerce(item.fields, "return_1d", parse);
    assert IsCryptoRecord(m) == IsCryptoRecord(item.fields);
  }

  /**
   * Apart from `return_1d`, `volume_usd` and `signed_return`, every field is kept; the
   * key set grows by `signed_return` under `all` and by nothing otherwise.
   */
  lemma EnrichKeepsOtherFields(item: Json, cls: string, parse: Parser)
    requires Enrich(item, cls, parse).Enriched?
    ensures var r := Enrich(item, cls, parse).record;
      && r.Keys == item.fields.Keys + (if cls == "all" then {"signed_return"} else {})
      && forall k :: k in item.fields && k != "return_1d" && k != "volume_usd" && k != "signed_return" ==>
           r[k] == item.fields[k]
  {
  }

  /** Both coerced fields: the parsed number when the string parses, else the old value. */
  lemma EnrichCoerces(item: Json, cls: string, parse: Parser)
    requires Enrich(item, cls, parse).Enriched?
    ensures var r := Enrich(item, cls, parse).record;
      && (Parses(item.fields, "return_1d", parse) ==> r["return_1d"] == JNum(parse(item.fields["return_1d"].s).value))
      && (!Parses(item.fields, "return_1d", parse) && "return_1d" in item.fields ==>
            r["return_1d"] == item.fields["return_1d"])
      && (Parses(item.fields, "volume_usd", parse) ==> r["volume_usd"] == JNum(parse(item.fields["volume_usd"].s).value))
      && (!Parses(item.fields, "volume_usd", parse) && "volume_usd" in item.fields ==>
            r["volume_usd"] == item.fields["volume_usd"])
  {
  }

  /** The crypto and stock records of the combined ranking, each with a 3% daily return. */
  lemma SignedReturnExample(parse: Parser)
    ensures var crypto := JObj(map["asset_type" := JStr("crypto"), "return_1d" := JNum(0.03)]);
      var stock := JObj(map["asset_type" := JStr("stock"), "return_1d" := JNum(0.03)]);
      && Enrich(crypto, "all", parse).Enriched?
      && Enrich(crypto, "all", parse).record["signed_return"] == JNum(0.03)
      && Enrich(stock, "all", parse).Enriched?
      && Enrich(stock, "all", parse).record["signed_return"] == JNum(-0.03)
  {
  }

  /** The outcome of the whole loop: the rewritten list, or the first record that raises. */
  datatype Batch = Batch(items: seq<Json>) | Escaped(at: nat, fault: Fault)

  function EnrichAll(items: seq<Json>, cls: string, parse: Parser): Batch
    decreases |items|
  {
    if items == [] then Batch([])
    else
      match EnrichAll(items[..|items| - 1], cls, parse)
      case Escaped(at, f) => Escaped(at, f)
      case Batch(done) =>
        match Enrich(items[|items| - 1], cls, parse)
        case Fails(f) => Escaped(|items| - 1, f)
        case Enriched(m) => Batch(done + [JObj(m)])
  }

  /**
   * The loop keeps the length and the order of the list when no record raises, and
   * otherwise escapes with the exception of the first record that does.
   */
  lemma {:induction false} EnrichAllSpec(items: seq<Json>, cls: string, parse: Parser)
    ensures var r := EnrichAll(items, cls, parse);
      && (r.Batch? <==> forall i :: 0 <= i < |items| ==> Enrich(items[i], cls, parse).Enriched?)
      && (r.Batch? ==>
            && |r.items| == |items|
            && forall i :: 0 <= i < |items| ==> r.items[i] == JObj(Enrich(items[i], cls, parse).record))
      && (r.Escaped? ==>
            && r.at < |items| && Enrich(items[r.at], cls, parse) == Fails(r.fault)
            && forall j :: 0 <= j < r.at ==> Enrich(items[j], cls, parse).Enriched?)
    decreases |items|
  {
    if items != [] {
      var init := items[..|items| - 1];
      EnrichAllSpec(init, cls, parse);
      assert forall i :: 0 <= i < |init| ==> init[i] == items[i];
      var last := Enrich(items[|items| - 1], cls, parse);
      if EnrichAll(init, cls, parse).Batch? && last.Enriched? {
        assert EnrichAll(items, cls, parse).items == EnrichAll(init, cls, parse).items + [JObj(last.record)];
      }
    }
  }

  /** A loop that reaches a raising record with no earlier failure escapes there. */
  lemma EscapesAt(items: seq<Json>, cls: string, parse: Parser, i: nat)
    requires i < |items| && EnrichAll(items[..i], cls, parse).Batch?
    requires Enrich(items[i], cls, parse).Fails?
    ensures EnrichAll(items, cls, parse) == Escaped(i, Enrich(items[i], cls, parse).fault)
  {
    EnrichAllSpec(items[..i], cls, parse);
    EnrichAllSpec(items, cls, parse);
    var r := EnrichAll(items, cls, parse);
    assert forall j :: 0 <= j < i ==> items[..i][j] == items[j];
    assert r.Escaped?;
  }

  /** What `_load_top_movers_from_cache` produces: None, the list, or an escaping exception. */
  function MoversBatch(cls: string, cache: Store, decode: Decoder, parse: Parser): Option<Batch>
  {
    match CachedList(cache(MoversKey(cls)), decode)
    case None => None
    case Some(items) => Some(EnrichAll(items, cls, parse))
  }

  /** `_load_top_movers_from_cache`, with its loop over the decoded records. */
  method LoadTopMovers(cls: string, cache: Store, decode: Decoder, parse: Parser) returns (r: Option<Batch>)
    ensures r == MoversBatch(cls, cache, decode, parse)
  {
    var list := CachedList(cache(MoversKey(cls)), decode);
    if list.None? {
      return None;
    }
    var items := list.value;
    var out: seq<Json> := [];
    for i := 0 to |items|
      invariant EnrichAll(items[..i], cls, parse) == Batch(out)
    {
      assert items[..i + 1][..i] == items[..i];
      var e := Enrich(items[i], cls, parse);
      if e.Fails? {
        EscapesAt(items, cls, parse, i);
        return Some(Escaped(i, e.fault));
      }
      out := out + [JObj(e.record)];
    }
    assert items[..|items|] == items;
    r := Some(Batch(out));
  }

  /** What a request for the top movers of a class ends in: a response, or a server error. */
  datatype Served = Served(snapshot: Snapshot) | Raised(at: nat, fault: Fault)

  /** The response for a class the reader serves. */
  function MoversOf(cls: string, cache: Store, decode: Decoder, parse: Parser): (r: Served)
    ensures var reply := cache(MoversKey(cls));
      (r == Served(Placeholder(cls))) <==>
        !(reply.Raw? && reply.text != [] && decode(reply.text).Some? && decode(reply.text).value.JArr?)
  {
    match MoversBatch(cls, cache, decode, parse)
    case None => Served(Placeholder(cls))
    case Some(Batch(items)) => Served(Data(items))
    case Some(Escaped(at, f)) => Raised(at, f)
  }

  /**
   * `get_top_movers`: a class outside crypto, stock and all gets its placeholder without
   * reading the cache; read lists the cache keys fetched.
   */
  method GetTopMovers(cls: string, cache: Store, decode: Decoder, parse: Parser) returns (r: Served, read: seq<string>)
    ensures !IsClass(cls) ==> r == Served(Placeholder(cls)) && read == []
    ensures IsClass(cls) ==> r == MoversOf(cls, cache, decode, parse) && read == [MoversKey(cls)]
  {
    if !IsClass(cls) {
      return Served(Placeholder(cls)), [];
    }
    read := [MoversKey(cls)];
    var data := LoadTopMovers(cls, cache, decode, parse);
    match data
    case None => r := Served(Placeholder(cls));
    case Some(Batch(items)) => r := Served(Data(items));
    case Some(Escaped(at, f)) => r := Raised(at, f);
  }

  /**
   * A served ranking of a served class: one rewritten record per cached record, in
   * order, for exactly the lists in which no record raises.
   */
  lemma MoversOfSpec(cls: string, cache: Store, decode: Decoder, parse: Parser)
    requires CachedList(cache(MoversKey(cls)), decode).Some?
    ensures var items := CachedList(cache(MoversKey(cls)), decode).value;
      var r := MoversOf(cls, cache, decode, parse);
      && (r.Served? <==> forall i :: 0 <= i < |items| ==> Enrich(items[i], cls, parse).Enriched?)
      && (r.Served? ==>
            && r.snapshot.Data? && |r.snapshot.items| == |items|
            && forall i :: 0 <= i < |items| ==> r.snapshot.items[i] == JObj(Enrich(items[i], cls, parse).record))
      && (r.Raised? ==> r.at < |items| && Enrich(items[r.at], cls, parse) == Fails(r.fault))
  {
    EnrichAllSpec(CachedList(cache(MoversKey(cls)), decode).value, cls, parse);
  }
}

/**
 * The latest-batch snapshot reader: one cached JSON list per asset class, returned as
 * decoded (crypto) or with each record's epoch-millisecond `datetime` turned into a
 * timestamp (stock), and a one-record placeholder whenever the cache cannot serve it.
 */
module AssetService {
  import opened Common
  import opened Cache

  const LatestCryptoKey := "asset:latest_batch:crypto"
  const LatestStockKey := "asset:latest_batch:stock"

  /** The message head before the class label. */
  const MessageHead := "Error loading "
  const MessageTail := " data from cache. Please wait a few minutes and refresh the dashboard."

  /** `_error_row`: the degraded placeholder for a class label ("crypto" or "stocks"). */
  function Placeholder(tag: string): (r: Snapshot)
    ensures Rendered(r) == [JObj(map["message" := JStr(
      "Error loading " + tag + " data from cache. Please wait a few minutes and refresh the dashboard.")])]
  {
    ErrorRow(MessageHead, tag, MessageTail)
  }

  /**
   * The range of seconds since the epoch that a UTC datetime can hold: from the start of
   * year 1 up to (not including) the start of year 10000.
   */
  const MinInstant: real := -62135596800.0
  const EndInstant: real := 253402300800.0

  /**
   * `_epoch_ms_to_datetime`: the instant `ms / 1000` seconds after the epoch, as seconds;
   * None where `datetime.fromtimestamp` raises because the year would leave 1..9999.
   */
  function EpochMsToInstant(ms: real): (r: Option<real>)
    ensures r.Some? <==> MinInstant * 1000.0 <= ms < EndInstant * 1000.0
    ensures r.Some? ==> r.value * 1000.0 == ms
  {
    var seconds := ms / 1000.0;
    if MinInstant <= seconds < EndInstant then Some(seconds) else None
  }

  /** A record whose `datetime` holds a number (a JSON boolean included). */
  predicate HasEpochDatetime(m: Record)
  {
    "datetime" in m && NumericValue(m["datetime"]).Some?
  }

  /**
   * One pass of the stock loop body: `item.get` on a non-object raises inside the try;
   * a numeric `datetime` becomes a timestamp, or raises when out of range; any other
   * record is left as it is.
   */
  function Stamp(item: Json): (r: Option<Json>)
    ensures r.None? <==>
      !item.JObj? || (HasEpochDatetime(item.fields) && EpochMsToInstant(NumericValue(item.fields["datetime"]).value).None?)
    ensures r.Some? ==> r.value.JObj? && r.value.fields.Keys == item.fields.Keys
    ensures r.Some? ==> forall k :: k in item.fields && k != "datetime" ==> r.value.fields[k] == item.fields[k]
    ensures r.Some? && !HasEpochDatetime(item.fields) ==> r.value == item
    ensures r.Some? && HasEpochDatetime(item.fields) ==>
      r.value.fields["datetime"].JTime? &&
      r.value.fields["datetime"].seconds * 1000.0 == NumericValue(item.fields["datetime"]).value
  {
    if !item.JObj? then None
    else if HasEpochDatetime(item.fields) then
      match EpochMsToInstant(NumericValue(item.fields["datetime"]).value)
      case None => None
      case Some(t) => Some(JObj(item.fields["datetime" := JTime(t)]))
    else Some(item)
  }

  /** The whole stock loop: every record stamped in order, or None as soon as one raises. */
  function StampAll(items: seq<Json>): Option<seq<Json>>
    decreases |items|
  {
    if items == [] then Some([])
    else
      match StampAll(items[..|items| - 1])
      case None => None
      case Some(done) =>
        match Stamp(items[|items| - 1])
        case None => None
        case Some(x) => Some(done + [x])
  }

  /** The loop succeeds exactly when every record does, keeping the length and the order. */
  lemma {:induction false} StampAllSpec(items: seq<Json>)
    ensures StampAll(items).Some? <==> forall i :: 0 <= i < |items| ==> Stamp(items[i]).Some?
    ensures StampAll(items).Some? ==>
      && |StampAll(items).value| == |items|
      && forall i :: 0 <= i < |items| ==> StampAll(items).value[i] == Stamp(items[i]).value
    decreases |items|
  {
    if items != [] {
      var init := items[..|items| - 1];
      StampAllSpec(init);
      assert forall i :: 0 <= i < |init| ==> init[i] == items[i];
    }
  }

  /** `_load_crypto_from_cache`: the decoded list as it is, or None. */
  function LoadCrypto(cache: Store, decode: Decoder): (r: Option<seq<Json>>)
    ensures var reply := cache(LatestCryptoKey);
      r.Some? <==> reply.Raw? && reply.text != [] && decode(reply.text).Some? && decode(reply.text).value.JArr?
    ensures r.Some? ==> r.value == decode(cache(LatestCryptoKey).text).value.items
  {
    CachedList(cache(LatestCryptoKey), decode)
  }

  /** What `_load_stock_from_cache` returns: the stamped list, or None. */
  function StockBatch(cache: Store, decode: Decoder): Option<seq<Json>>
  {
    match CachedList(cache(LatestStockKey), decode)
    case None => None
    case Some(items) => StampAll(items)
  }

  /** `_load_stock_from_cache`, with its loop over the decoded records. */
  method LoadStock(cache: Store, decode: Decoder) returns (r: Option<seq<Json>>)
    ensures r == StockBatch(cache, decode)
  {
    var list := CachedList(cache(LatestStockKey), decode);
    if list.None? {
      return None;
    }
    var items := list.value;
    var out: seq<Json> := [];
    for i := 0 to |items|
      invariant StampAll(items[..i]) == Some(out)
    {
      var s := Stamp(items[i]);
      if s.None? {
        StampAllSpec(items);
        return None;
      }
      assert items[..i + 1][..i] == items[..i];
      out := out + [s.value];
    }
    assert items[..|items|] == items;
    r := Some(out);
  }

  /** `_get_latest_crypto`. */
  function LatestCrypto(cache: Store, decode: Decoder): (r: Snapshot)
    ensures r.Degraded? <==> LoadCrypto(cache, decode).None?
    ensures r.Degraded? ==> r == Placeholder("crypto")
    ensures r.Data? ==> r.items == decode(cache(LatestCryptoKey).text).value.items
  {
    match LoadCrypto(cache, decode)
    case None => Placeholder("crypto")
    case Some(data) => Data(data)
  }

  /** What `_get_latest_stock` returns. */
  function LatestStock(cache: Store, decode: Decoder): Snapshot
  {
    match StockBatch(cache, decode)
    case None => Placeholder("stocks")
    case Some(data) => Data(data)
  }

  /** `_get_latest_stock`. */
  method GetLatestStock(cache: Store, decode: Decoder) returns (r: Snapshot)
    ensures r == LatestStock(cache, decode)
  {
    var data := LoadStock(cache, decode);
    if data.None? {
      return Placeholder("stocks");
    }
    r := Data(data.value);
  }

  /**
   * The stock snapshot: the placeholder exactly when the store raises, holds nothing or
   * an empty value, the text does not decode to a list, or some record is not an object
   * or holds an out-of-range epoch; otherwise one stamped record per decoded record.
   */
  lemma LatestStockSpec(cache: Store, decode: Decoder)
    ensures var reply := cache(LatestStockKey);
      var listed := reply.Raw? && reply.text != [] && decode(reply.text).Some? && decode(reply.text).value.JArr?;
      var r := LatestStock(cache, decode);
      && (r.Degraded? <==>
            !listed || exists i :: 0 <= i < |decode(reply.text).value.items| && Stamp(decode(reply.text).value.items[i]).None?)
      && (r.Degraded? ==> r == Placeholder("stocks"))
      && (r.Data? ==>
            var items := decode(reply.text).value.items;
            |r.items| == |items| && forall i :: 0 <= i < |items| ==> Stamp(items[i]) == Some(r.items[i]))
  {
    var reply := cache(LatestStockKey);
    var list := CachedList(reply, decode);
    if list.Some? {
      StampAllSpec(list.value);
    }
  }

  /** A decoded list with a record that is not an object degrades the whole stock snapshot. */
  lemma NonObjectDegradesStock(cache: Store, decode: Decoder, i: nat)
    requires cache(LatestStockKey).Raw? && decode(cache(LatestStockKey).text).Some?
    requires decode(cache(LatestStockKey).text).value.JArr?
    requires i < |decode(cache(LatestStockKey).text).value.items|
    requires !decode(cache(LatestStockKey).text).value.items[i].JObj?
    ensures LatestStock(cache, decode) == Placeholder("stocks")
  {
    var items := decode(cache(LatestStockKey).text).value.items;
    assert Stamp(items[i]).None?;
    StampAllSpec(items);
  }

  /**
   * `get_latest_assets`: the class's snapshot for "crypto" and "stock", and a client
   * error, not the placeholder, for any other class.
   */
  method GetLatestAssets(assetType: string, cache: Store, decode: Decoder) returns (r: Outcome<Snapshot>)
    ensures assetType == "crypto" ==> r == Ok(LatestCrypto(cache, decode))
    ensures assetType == "stock" ==> r == Ok(LatestStock(cache, decode))
    ensures assetType != "crypto" && assetType != "stock" ==> r == InvalidArgument("Invalid asset_type")
  {
    if assetType == "crypto" {
      r := Ok(LatestCrypto(cache, decode));
    } else if assetType == "stock" {
      var s := GetLatestStock(cache, decode);
      r := Ok(s);
    } else {
      r := InvalidArgument("Invalid asset_type");
    }
  }
}

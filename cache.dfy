/**
 * The snapshot cache as the request logic sees it: a key-value store whose values are
 * JSON texts written by outside producers, and the shapes the readers hand back.
 */
module Cache {
  import opened Common

  /**
   * A decoded JSON value. JTime is not JSON: it is the datetime object that the
   * latest-batch stock reader writes back into a record in place of an epoch number.
   */
  datatype Json =
    | JNull
    | JBool(b: bool)
    | JNum(n: real)
    | JStr(s: string)
    | JArr(items: seq<Json>)
    | JObj(fields: map<string, Json>)
    | JTime(seconds: real)

  /** A JSON object, the shape of every cached record. */
  type Record = map<string, Json>

  /** The JSON decoder (`json.loads`), left abstract: None when the text is not valid JSON. */
  type Decoder = string -> Option<Json>

  /** What one `get` on the cache gives back: an exception, no value, or a text. */
  datatype StoreReply = StoreError | Missing | Raw(text: string)

  /** The cache itself, as the reply each key would produce. */
  type Store = string -> StoreReply

  /** What a snapshot reader returns: the list of records, or the degraded placeholder. */
  datatype Snapshot = Data(items: seq<Json>) | Degraded(message: string)

  /**
   * The number a Python `isinstance(v, (int, float))` test accepts; a JSON boolean
   * counts, since Python's bool is a subclass of int.
   */
  function NumericValue(v: Json): (r: Option<real>)
    ensures r.Some? <==> v.JNum? || v.JBool?
    ensures v.JNum? ==> r == Some(v.n)
    ensures v.JBool? ==> r == Some(if v.b then 1.0 else 0.0)
  {
    match v
    case JNum(n) => Some(n)
    case JBool(b) => Some(if b then 1.0 else 0.0)
    case _ => None
  }

  /** The record list a snapshot stands for on the wire. */
  function Rendered(s: Snapshot): (r: seq<Json>)
    ensures s.Data? ==> r == s.items
    ensures s.Degraded? ==>
      |r| == 1 && r[0].JObj? && r[0].fields.Keys == {"message"} && r[0].fields["message"] == JStr(s.message)
  {
    match s
    case Data(items) => items
    case Degraded(message) => [JObj(map["message" := JStr(message)])]
  }

  /**
   * The placeholder of the `_error_row` helpers: a degraded snapshot whose message is the
   * label between a fixed head and a fixed tail.
   */
  function ErrorRow(head: string, tag: string, tail: string): (r: Snapshot)
    ensures r.Degraded?
    ensures |Rendered(r)| == 1 && Rendered(r)[0].JObj? && Rendered(r)[0].fields.Keys == {"message"}
    ensures |r.message| == |head| + |tag| + |tail|
    ensures r.message[..|head|] == head
    ensures r.message[|head|..|head| + |tag|] == tag
    ensures r.message[|head| + |tag|..] == tail
  {
    Degraded(head + tag + tail)
  }

  /** The placeholder names its label: with the same head and tail, equal messages come from equal labels. */
  lemma ErrorRowInjective(head: string, a: string, b: string, tail: string)
    requires ErrorRow(head, a, tail) == ErrorRow(head, b, tail)
    ensures a == b
  {
    var m := ErrorRow(head, a, tail).message;
    assert |a| == |b|;
    assert m[|head|..|head| + |b|] == b;
  }

  /**
   * Fetch, emptiness test, decode and list test, shared by every reader: any store
   * exception, missing or empty value, undecodable text or non-list value gives None.
   */
  function CachedList(reply: StoreReply, decode: Decoder): (r: Option<seq<Json>>)
    ensures r.Some? <==>
      reply.Raw? && reply.text != [] && decode(reply.text).Some? && decode(reply.text).value.JArr?
    ensures r.Some? ==> r.value == decode(reply.text).value.items
  {
    match reply
    case Raw(text) =>
      if text == [] then None
      else (
        match decode(text)
        case Some(JArr(items)) => Some(items)
        case _ => None
      )
    case _ => None
  }
}

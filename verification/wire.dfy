/** What travels over the transport: published records and the response
    envelope a responder writes into a reply's value.

    JSON encoding is abstracted: a message body is a `Json` value, and the
    requester reads a reply's value as an already-decoded `Envelope`, which is
    either a parse failure or the envelope's fields with JavaScript's falsy
    values ("" and 0) standing for an absent field. */
module Wire {
  import opened Headers
  import opened Errors

  datatype Json =
    | JNull
    | JBool(b: bool)
    | JNum(n: int)
    | JStr(s: string)
    | JArr(items: seq<Json>)
    | JObj(fields: seq<(string, Json)>)

  /** One record handed to the producer. */
  datatype Record<K, V> = Record(key: K, value: V, headers: Headers)

  /** One `producer.send({topic, messages})` call. */
  datatype Publish<K, V> = Publish(topic: string, records: seq<Record<K, V>>)

  /** The envelope a responder sends back: `{success: true, data, timestamp}` or
      `{success: false, statusCode, error, message, timestamp}`. */
  datatype Response =
    | SuccessResponse(data: Json, timestamp: int)
    | ErrorResponse(statusCode: int, error: string, message: string, timestamp: int)

  /** A reply's value after `JSON.parse`: the parse failed with some thrown
      value, or the fields `success`, `data`, `statusCode`, `error`, `message`. */
  datatype Envelope =
    | Unparsable(cause: Thrown)
    | Decoded(success: bool, data: Json, statusCode: int, error: string, message: string)

  /** A response envelope after `JSON.stringify` on the responder and
      `JSON.parse` on the requester. */
  function Transmit(r: Response): (e: Envelope)
    ensures e.Decoded? && (e.success <==> r.SuccessResponse?)
    ensures r.SuccessResponse? ==> e.data == r.data
    ensures r.ErrorResponse? ==>
              e.statusCode == r.statusCode && e.error == r.error && e.message == r.message
  {
    match r
    case SuccessResponse(d, _) => Decoded(true, d, 0, "", "")
    case ErrorResponse(sc, err, msg, _) => Decoded(false, JNull, sc, err, msg)
  }

  /** A header value as a consumer receives it: the transport delivers string
      values as byte buffers. */
  function OnWire(v: HeaderValue): HeaderValue {
    if v.HStr? then HBytes(v.s) else v
  }

  /** Headers as a consumer receives them: same keys in the same order, each
      value as the transport delivers it. */
  function Delivered(h: Headers): (r: Headers)
    ensures |r| == |h| && forall i :: 0 <= i < |h| ==> r[i] == (h[i].0, OnWire(h[i].1))
  {
    seq(|h|, i requires 0 <= i < |h| => (h[i].0, OnWire(h[i].1)))
  }

  /** Reading a delivered header reads the published one through the transport. */
  lemma {:induction false} LookupDelivered(h: Headers, k: string)
    ensures Lookup(Delivered(h), k) == OnWire(Lookup(h, k))
    decreases |h|
  {
    if |h| > 0 {
      assert Delivered(h)[1..] == Delivered(h[1..]);
      LookupDelivered(h[1..], k);
    }
  }

  /** The transport keeps keys, so a case-insensitive key search finds the same key. */
  lemma {:induction false} FindKeyDelivered(h: Headers, target: string)
    ensures FindKeyIgnoringCase(Delivered(h), target) == FindKeyIgnoringCase(h, target)
    decreases |h|
  {
    if |h| > 0 {
      assert Delivered(h)[1..] == Delivered(h[1..]);
      FindKeyDelivered(h[1..], target);
    }
  }
}

/** The fire-and-forget publisher (src/core/patterns/fire-and-forget.pattern.ts).

    `send` publishes one record whose key is a fresh message id and whose
    headers are `message-id`, `message-type` and `timestamp`, followed by the
    caller's custom headers after normalisation. `message-type` is promoted to
    "request-reply" when the custom headers carry a correlation id, which is how
    a responder's reply is told apart from a plain event. The id generator and
    the clock are parameters. */
module FireAndForget {
  import opened Wrappers
  import opened Headers
  import opened Numeric
  import opened Wire

  const FireAndForgetType := "fire-and-forget"
  const RequestReplyType := "request-reply"
  const CorrelationIdKey := "correlation-id"

  /** The detection test applied to the value found under the correlation-id
      key: anything but `undefined`, `null`, an empty list or an empty buffer.
      An empty string passes. */
  predicate CountsAsCorrelationId(v: HeaderValue) {
    !(v.HUndef? || v.HNull?) && !(v.HList? && |v.items| == 0) && !(v.HBytes? && |v.text| == 0)
  }

  function DetectMessageType(custom: Option<Headers>): (t: string)
    ensures t == RequestReplyType || t == FireAndForgetType
    ensures custom.None? ==> t == FireAndForgetType
  {
    if custom.None? then FireAndForgetType
    else match FindKeyIgnoringCase(custom.value, CorrelationIdKey)
      case None => FireAndForgetType
      case Some(k) => if CountsAsCorrelationId(Lookup(custom.value, k)) then RequestReplyType else FireAndForgetType
  }

  /** How one custom header value is written: `null` and `undefined` are
      skipped; a list contributes its first element; buffers become utf-8 text;
      anything else goes through `String`. */
  function NormaliseCustom(v: HeaderValue): (r: Option<string>)
    ensures r.None? <==> (v.HNull? || v.HUndef?)
  {
    match v
    case HNull => None
    case HUndef => None
    case HList(items) =>
      var f := First(items);
      if f.EBytes? then Some(f.text) else Some(if f.EStr? then f.s else ElemString(f))
    case HBytes(t) => Some(t)
    case HStr(s) => Some(s)
    case HOther(t, _) => Some(t)
  }

  /** The loop over `Object.entries(customHeaders)`, writing into `acc`. */
  function ApplyCustom(acc: Headers, entries: Headers): Headers
    decreases |entries|
  {
    if |entries| == 0 then acc
    else
      var (k, v) := entries[0];
      var acc' := match NormaliseCustom(v) case None => acc case Some(s) => Set(acc, k, HStr(s));
      ApplyCustom(acc', entries[1..])
  }

  function BaseHeaders(messageId: string, messageType: string, now: int): Headers {
    [("message-id", HStr(messageId)), ("message-type", HStr(messageType)), ("timestamp", HStr(IntToString(now)))]
  }

  /** The three headers every publish starts from: exactly `message-id`,
      `message-type` and `timestamp`, each once. */
  lemma BaseHeadersSpec(messageId: string, messageType: string, now: int)
    ensures var h := BaseHeaders(messageId, messageType, now);
            && KeySet(h) == {"message-id", "message-type", "timestamp"} && DistinctKeys(h)
            && Lookup(h, "message-id") == HStr(messageId)
            && Lookup(h, "message-type") == HStr(messageType)
            && Lookup(h, "timestamp") == HStr(IntToString(now))
  {
    var h := BaseHeaders(messageId, messageType, now);
    assert |"message-id"| == 10 && |"message-type"| == 12 && |"timestamp"| == 9;
    assert h[1..][1..] == [h[2]];
    assert Lookup(h[1..], "timestamp") == Lookup([h[2]], "timestamp");
    assert KeySet(h) == {h[0].0, h[1].0, h[2].0};
  }

  function SendHeaders(custom: Option<Headers>, messageId: string, now: int): Headers {
    var base := BaseHeaders(messageId, DetectMessageType(custom), now);
    if custom.None? then base else ApplyCustom(base, custom.value)
  }

  /** `send(topic, message, customHeaders)`: one publish of one record keyed by
      the new message id. A publish failure reaches the caller unchanged. */
  function Send<T>(topic: string, message: T, custom: Option<Headers>, messageId: string, now: int)
    : (p: Publish<string, T>)
    ensures p.topic == topic && |p.records| == 1
    ensures p.records[0].key == messageId && p.records[0].value == message
  {
    Publish(topic, [Record(messageId, message, SendHeaders(custom, messageId, now))])
  }

  /** `sendBatch(topic, messages)`: one publish carrying one record per
      message, in order, each with only the three base headers. */
  function SendBatch<T>(topic: string, messages: seq<T>, ids: seq<string>, now: int)
    : (p: Publish<string, T>)
    requires |ids| == |messages|
    ensures p.topic == topic && |p.records| == |messages|
    ensures forall i :: 0 <= i < |messages| ==>
              p.records[i].key == ids[i] && p.records[i].value == messages[i]
              && Lookup(p.records[i].headers, "message-id") == HStr(ids[i])
              && Lookup(p.records[i].headers, "message-type") == HStr(FireAndForgetType)
              && Lookup(p.records[i].headers, "timestamp") == HStr(IntToString(now))
              && KeySet(p.records[i].headers) == {"message-id", "message-type", "timestamp"}
  {
    BaseHeadersEach(ids, now);
    Publish(topic, seq(|messages|, i requires 0 <= i < |messages| =>
      Record(ids[i], messages[i], BaseHeaders(ids[i], FireAndForgetType, now))))
  }

  lemma BaseHeadersEach(ids: seq<string>, now: int)
    ensures forall i :: 0 <= i < |ids| ==>
              var h := BaseHeaders(ids[i], FireAndForgetType, now);
              && KeySet(h) == {"message-id", "message-type", "timestamp"}
              && Lookup(h, "message-id") == HStr(ids[i])
              && Lookup(h, "message-type") == HStr(FireAndForgetType)
              && Lookup(h, "timestamp") == HStr(IntToString(now))
  {
    forall i | 0 <= i < |ids| {
      BaseHeadersSpec(ids[i], FireAndForgetType, now);
    }
  }

  /** The message type is "request-reply" exactly when the first key that equals
      "correlation-id" ignoring case holds a value that counts as present. */
  lemma DetectMessageTypeSpec(h: Headers)
    requires DistinctKeys(h)
    ensures DetectMessageType(Some(h)) == RequestReplyType <==>
              exists i :: 0 <= i < |h| && Lower(h[i].0) == CorrelationIdKey
                && (forall j :: 0 <= j < i ==> Lower(h[j].0) != CorrelationIdKey)
                && CountsAsCorrelationId(h[i].1)
  {
    var r := FindKeyIgnoringCase(h, CorrelationIdKey);
    if r.Some? {
      var i :| 0 <= i < |h| && h[i].0 == r.value && Lower(h[i].0) == CorrelationIdKey
               && forall j :: 0 <= j < i ==> Lower(h[j].0) != CorrelationIdKey;
      LookupOfDistinct(h, i);
      forall i' | 0 <= i' < |h| && Lower(h[i'].0) == CorrelationIdKey
                  && (forall j :: 0 <= j < i' ==> Lower(h[j].0) != CorrelationIdKey)
        ensures i' == i
      {
        if i' < i { assert false; }
        if i < i' { assert false; }
      }
    }
  }

  /** Reading a header after the custom loop: the custom value where the caller
      gave a non-nullish one, the value written before the loop elsewhere. */
  lemma {:induction false} ApplyCustomLookup(acc: Headers, entries: Headers, k: string)
    requires DistinctKeys(acc) && DistinctKeys(entries)
    ensures DistinctKeys(ApplyCustom(acc, entries))
    ensures Lookup(ApplyCustom(acc, entries), k) ==
              match NormaliseCustom(Lookup(entries, k))
              case Some(s) => HStr(s)
              case None => Lookup(acc, k)
    decreases |entries|
  {
    if |entries| > 0 {
      var (k0, v0) := entries[0];
      var acc' := match NormaliseCustom(v0) case None => acc case Some(s) => Set(acc, k0, HStr(s));
      if NormaliseCustom(v0).Some? {
        SetKeepsDistinct(acc, k0, HStr(NormaliseCustom(v0).value));
      }
      assert DistinctKeys(entries[1..]) by {
        forall i, j | 0 <= i < j < |entries[1..]| ensures entries[1..][i].0 != entries[1..][j].0 {
          assert entries[1..][i] == entries[i + 1] && entries[1..][j] == entries[j + 1];
        }
      }
      ApplyCustomLookup(acc', entries[1..], k);
      if k == k0 {
        assert Lookup(entries[1..], k) == HUndef by {
          forall i | 0 <= i < |entries[1..]| ensures entries[1..][i].0 != k {
            assert entries[1..][i] == entries[i + 1];
          }
        }
        if NormaliseCustom(v0).Some? {
          LookupSetSame(acc, k0, HStr(NormaliseCustom(v0).value));
        }
      } else if NormaliseCustom(v0).Some? {
        LookupSetOther(acc, k0, HStr(NormaliseCustom(v0).value), k);
      }
    }
  }

  /** Every header of a sent record: a custom value wins over the base value. */
  lemma SendHeaderLookup(custom: Option<Headers>, messageId: string, now: int, k: string)
    requires custom.Some? ==> DistinctKeys(custom.value)
    ensures DistinctKeys(SendHeaders(custom, messageId, now))
    ensures Lookup(SendHeaders(custom, messageId, now), k) ==
              var base := BaseHeaders(messageId, DetectMessageType(custom), now);
              if custom.None? then Lookup(base, k)
              else match NormaliseCustom(Lookup(custom.value, k))
                   case Some(s) => HStr(s)
                   case None => Lookup(base, k)
  {
    if custom.Some? {
      ApplyCustomLookup(BaseHeaders(messageId, DetectMessageType(custom), now), custom.value, k);
    }
  }

  /** Without a caller-supplied `message-type`, the detected type is written;
      with one, the caller's value is written instead. */
  lemma CallerMessageTypeWins(custom: Headers, messageId: string, now: int)
    requires DistinctKeys(custom)
    ensures var written := Lookup(SendHeaders(Some(custom), messageId, now), "message-type");
            match NormaliseCustom(Lookup(custom, "message-type"))
            case Some(s) => written == HStr(s)
            case None => written == HStr(DetectMessageType(Some(custom)))
  {
    SendHeaderLookup(Some(custom), messageId, now, "message-type");
  }

  /** Custom normalisation is `String` of the value, taking the first element of
      a list, with buffers read as utf-8 text. */
  lemma NormaliseIsStringOfFirstElement(v: HeaderValue)
    requires !v.HNull? && !v.HUndef?
    ensures NormaliseCustom(v) == Some(if v.HList? then ElemString(First(v.items)) else ValueString(v))
  {
  }

  /** A one-message batch publishes what a plain send without custom headers publishes. */
  lemma BatchOfOneIsSend<T>(topic: string, message: T, id: string, now: int)
    ensures SendBatch(topic, [message], [id], now) == Send(topic, message, None, id, now)
  {
  }

  /** A custom header given as a string or as a buffer holding text `t` is
      written as the plain string `t`, whatever the other custom headers are. */
  lemma BufferHeaderArrivesAsText<T>(topic: string, message: T, custom: Headers, id: string, now: int,
                                     k: string, t: string)
    requires DistinctKeys(custom)
    requires Lookup(custom, k) == HStr(t) || Lookup(custom, k) == HBytes(t)
    ensures Lookup(Send(topic, message, Some(custom), id, now).records[0].headers, k) == HStr(t)
  {
    SendHeaderLookup(Some(custom), id, now, k);
  }
}

/** The dead-letter listener (src/core/retry/dlq-handler.ts).

    While running, the handler hands every message of the dead-letter topics to
    a user callback, together with the failure metadata the retry escalator
    wrote into its headers. A failing callback is logged and swallowed, so one
    bad message never stops the stream. The consumer is reduced to the calls
    made on it, and the callback to the failure it may raise. */
module DeadLetter {
  import opened Wrappers
  import opened Headers
  import opened Numeric
  import opened Errors

  const CallbackFailureMessage := "Error processing DLQ message"

  /** The handler's state: whether it is running, the topic lists it has
      subscribed to and the number of times it disconnected its consumer. */
  datatype Handler = Handler(running: bool, subscribed: seq<seq<string>>, disconnects: nat)

  /** One message as the consumer delivers it. */
  datatype Delivery<K, V> = Delivery(topic: string, partition: int, key: K, value: V, headers: Option<Headers>, offset: string)

  /** What the callback receives. `failedAt` and `totalRetries` are `None` where
      `parseInt` gives `NaN`. */
  datatype DlqMessage<K, V> = DlqMessage(
    topic: string,
    partition: int,
    key: K,
    value: V,
    headers: Headers,
    offset: string,
    originalTopic: string,
    error: string,
    errorStack: string,
    failedAt: Option<int>,
    totalRetries: Option<int>)

  /** The callback's argument, and the error logged when the callback failed. */
  datatype Handled<K, V> = Handled(passed: DlqMessage<K, V>, logged: Option<KafkaClientError>)

  function NewHandler(): (h: Handler)
    ensures !h.running && h.subscribed == [] && h.disconnects == 0
  {
    Handler(false, [], 0)
  }

  /** `start(dlqTopics)`: subscribe and run once; a second start while running
      changes nothing. */
  function Start(h: Handler, topics: seq<string>): (r: Handler)
    ensures r.running && r.disconnects == h.disconnects
    ensures h.running ==> r == h
    ensures !h.running ==> r.subscribed == h.subscribed + [topics]
  {
    if h.running then h else h.(running := true, subscribed := h.subscribed + [topics])
  }

  /** `stop()`: disconnect once; stopping a stopped handler changes nothing. */
  function Stop(h: Handler): (r: Handler)
    ensures !r.running && r.subscribed == h.subscribed
    ensures !h.running ==> r == h
    ensures h.running ==> r.disconnects == h.disconnects + 1
  {
    if !h.running then h else h.(running := false, disconnects := h.disconnects + 1)
  }

  /** This handler's `getHeaderValue(headers, key)`: `undefined` for a falsy
      value; for a list, its first element as a string, `undefined` when that
      element is `null` or `undefined`; otherwise the value as a string. */
  function GetHeaderValue(h: Headers, key: string): (r: Option<string>)
    ensures var v := Lookup(h, key);
            && (r.None? <==> !Truthy(v) || (v.HList? && (First(v.items).ENull? || First(v.items).EUndef?)))
            && (r.Some? && v.HList? ==> r.value == ElemString(First(v.items)))
            && (r.Some? && !v.HList? ==> r.value == ValueString(v))
  {
    var v := Lookup(h, key);
    if !Truthy(v) then None
    else if v.HList? then
      match First(v.items)
      case EStr(s) => Some(s)
      case EBytes(t) => Some(t)
      case ENull => None
      case EUndef => None
      case EOther(t, _) => Some(t)
    else if v.HStr? then Some(v.s)
    else Some(ValueString(v))
  }

  /** `getHeaderValue(...) || d`. */
  function ValueOr(r: Option<string>, d: string): (s: string)
    ensures r.Some? && r.value != "" ==> s == r.value
    ensures r.None? || r.value == "" ==> s == d
  {
    if r.Some? then TextOr(r.value, d) else d
  }

  /** What `simplifyHeaders` keeps of one value: nothing for a falsy value or a
      list whose first element is falsy, the first element of any other list,
      the value itself otherwise. */
  function Simplified(v: HeaderValue): (r: HeaderValue)
    ensures r.HUndef? || (Truthy(r) && !r.HList?)
    ensures !Truthy(v) ==> r.HUndef?
    ensures Truthy(v) && !v.HList? ==> r == v
    ensures v.HList? && !ElemTruthy(First(v.items)) ==> r.HUndef?
    ensures v.HList? && ElemTruthy(First(v.items)) ==>
              match First(v.items)
              case EStr(s) => r == HStr(s)
              case EBytes(t) => r == HBytes(t)
              case EOther(t, b) => r == HOther(t, b)
              case _ => false
  {
    if !Truthy(v) then HUndef
    else if v.HList? then
      var f := First(v.items);
      if !ElemTruthy(f) then HUndef
      else match f
        case EStr(s) => HStr(s)
        case EBytes(t) => HBytes(t)
        case EOther(t, b) => HOther(t, b)
    else v
  }

  /** The loop of `simplifyHeaders`, writing into `acc`. */
  function SimplifyInto(acc: Headers, entries: Headers): Headers
    decreases |entries|
  {
    if |entries| == 0 then acc
    else
      var s := Simplified(entries[0].1);
      SimplifyInto(if s.HUndef? then acc else Set(acc, entries[0].0, s), entries[1..])
  }

  function SimplifyHeaders(h: Headers): Headers {
    SimplifyInto([], h)
  }

  /** `handleDLQMessage(payload)` when the callback fails with `failure` (or
      not): the callback always receives the message with the metadata read
      from its headers and the defaults "unknown", "Unknown error", "" and "0";
      a failure is turned into a `KafkaClientError`, logged, and goes no further. */
  function HandleDlqMessage<K, V>(d: Delivery<K, V>, failure: Option<Thrown>): (r: Handled<K, V>)
    ensures r.passed.topic == d.topic && r.passed.partition == d.partition && r.passed.offset == d.offset
    ensures r.passed.key == d.key && r.passed.value == d.value
    ensures r.passed.headers == SimplifyHeaders(d.headers.GetOr([]))
    ensures r.passed.originalTopic != "" && r.passed.error != ""
    ensures var h := d.headers.GetOr([]);
            && r.passed.originalTopic == ValueOr(GetHeaderValue(h, "original-topic"), "unknown")
            && r.passed.error == ValueOr(GetHeaderValue(h, "error"), "Unknown error")
            && r.passed.errorStack == ValueOr(GetHeaderValue(h, "error-stack"), "")
            && r.passed.failedAt == ParseInt(ValueOr(GetHeaderValue(h, "failed-at"), "0"))
            && r.passed.totalRetries == ParseInt(ValueOr(GetHeaderValue(h, "total-retries"), "0"))
    ensures r.logged.None? <==> failure.None?
    ensures failure.Some? ==> r.logged == Some(FromError(failure.value, CallbackFailureMessage))
  {
    var h := d.headers.GetOr([]);
    var passed := DlqMessage(
      d.topic, d.partition, d.key, d.value, SimplifyHeaders(h), d.offset,
      ValueOr(GetHeaderValue(h, "original-topic"), "unknown"),
      ValueOr(GetHeaderValue(h, "error"), "Unknown error"),
      ValueOr(GetHeaderValue(h, "error-stack"), ""),
      ParseInt(ValueOr(GetHeaderValue(h, "failed-at"), "0")),
      ParseInt(ValueOr(GetHeaderValue(h, "total-retries"), "0")));
    Handled(passed, if failure.Some? then Some(FromError(failure.value, CallbackFailureMessage)) else None)
  }

  /** Starting twice is starting once; stopping twice is stopping once. */
  lemma StartStopIdempotent(h: Handler, t: seq<string>, t': seq<string>)
    ensures Start(Start(h, t), t') == Start(h, t)
    ensures Stop(Stop(h)) == Stop(h)
  {
  }

  /** Reading the simplified headers: the simplified value under each key the
      original headers hold, and no other key. */
  lemma {:induction false} SimplifyIntoLookup(acc: Headers, entries: Headers, k: string)
    requires DistinctKeys(acc) && DistinctKeys(entries)
    ensures DistinctKeys(SimplifyInto(acc, entries))
    ensures Lookup(SimplifyInto(acc, entries), k) ==
              if Simplified(Lookup(entries, k)).HUndef? then Lookup(acc, k) else Simplified(Lookup(entries, k))
    decreases |entries|
  {
    if |entries| > 0 {
      var (k0, v0) := entries[0];
      var s := Simplified(v0);
      var acc' := if s.HUndef? then acc else Set(acc, k0, s);
      if !s.HUndef? {
        SetKeepsDistinct(acc, k0, s);
      }
      assert DistinctKeys(entries[1..]) by {
        forall i, j | 0 <= i < j < |entries[1..]| ensures entries[1..][i].0 != entries[1..][j].0 {
          assert entries[1..][i] == entries[i + 1] && entries[1..][j] == entries[j + 1];
        }
      }
      SimplifyIntoLookup(acc', entries[1..], k);
      if k == k0 {
        assert Lookup(entries[1..], k) == HUndef by {
          forall i | 0 <= i < |entries[1..]| ensures entries[1..][i].0 != k {
            assert entries[1..][i] == entries[i + 1];
          }
        }
        if !s.HUndef? {
          LookupSetSame(acc, k0, s);
        }
      } else if !s.HUndef? {
        LookupSetOther(acc, k0, s, k);
      }
    }
  }

  lemma SimplifyHeadersLookup(h: Headers, k: string)
    requires DistinctKeys(h)
    ensures Lookup(SimplifyHeaders(h), k) == Simplified(Lookup(h, k))
    ensures Truthy(Lookup(SimplifyHeaders(h), k)) || Lookup(SimplifyHeaders(h), k).HUndef?
    ensures !Lookup(SimplifyHeaders(h), k).HList?
  {
    SimplifyIntoLookup([], h, k);
  }

  /** For headers of the transport's own types (strings, buffers and lists of
      them), the metadata read with a default is the same whether read from
      the raw headers or from the simplified ones the callback receives. */
  lemma ReadsAgreeWithSimplified(h: Headers, k: string, d: string)
    requires DistinctKeys(h)
    requires forall i :: 0 <= i < |h| && h[i].1.HList? ==> forall j :: 0 <= j < |h[i].1.items| ==> !h[i].1.items[j].EOther?
    ensures ValueOr(GetHeaderValue(SimplifyHeaders(h), k), d) == ValueOr(GetHeaderValue(h, k), d)
  {
    SimplifyHeadersLookup(h, k);
    var v := Lookup(h, k);
    if v.HList? && |v.items| > 0 {
      LookupFound(h, k);
      var i :| 0 <= i < |h| && h[i].0 == k && h[i].1 == v;
      assert !v.items[0].EOther?;
    }
  }
}

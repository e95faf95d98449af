/** The retry escalator (src/core/retry/retry-handler.ts).

    Given a message whose processing failed, `handleError` reads the message's
    `retry-count` header and makes exactly one publish: back to the original
    topic with the count incremented (after an optional back-off sleep), or,
    once the count has reached `maxRetries`, to `<topic>.dlq` with failure
    metadata. The retry state lives only in the message's headers. The clock is
    a parameter and the sleep is returned as a request rather than performed. */
module Retry {
  import opened Wrappers
  import opened Headers
  import opened Numeric
  import opened Errors
  import opened Wire

  const DefaultMaxRetries := 3
  const DefaultBaseDelay := 1000
  const DeadLetterSuffix := ".dlq"

  datatype RetryOptions = RetryOptions(maxRetries: Option<int>, baseDelay: Option<int>, useExponentialBackoff: Option<bool>)

  datatype Config = Config(maxRetries: int, baseDelay: int, exponential: bool)

  /** A message as the handler receives it. */
  datatype Message<K, V> = Message(key: K, value: V, headers: Option<Headers>)

  /** What one `handleError` call does: the one publish, and the sleep that
      precedes it when the delay is non-zero. */
  datatype Escalation<K, V> = Escalation(publish: Publish<K, V>, sleep: Option<real>)

  /** The constructor's defaults: `maxRetries || 3`, `baseDelay || 1000`, and
      back-off on unless explicitly `false`. */
  function NewConfig(o: RetryOptions): (c: Config)
    ensures c.maxRetries != 0 && c.baseDelay != 0
    ensures o.maxRetries.Some? && o.maxRetries.value != 0 ==> c.maxRetries == o.maxRetries.value
    ensures o.maxRetries.None? || o.maxRetries.value == 0 ==> c.maxRetries == DefaultMaxRetries
    ensures o.baseDelay.Some? && o.baseDelay.value != 0 ==> c.baseDelay == o.baseDelay.value
    ensures o.baseDelay.None? || o.baseDelay.value == 0 ==> c.baseDelay == DefaultBaseDelay
    ensures !c.exponential <==> o.useExponentialBackoff == Some(false)
  {
    Config(NumberOr(o.maxRetries, DefaultMaxRetries), NumberOr(o.baseDelay, DefaultBaseDelay),
           o.useExponentialBackoff != Some(false))
  }

  function RetryCountHeader(headers: Option<Headers>): HeaderValue {
    if headers.None? then HUndef else Lookup(headers.value, "retry-count")
  }

  /** `getRetryCount(message)`: 0 when the header is absent or falsy, otherwise
      `parseInt(text, 10) || 0` of its text. */
  function GetRetryCount(headers: Option<Headers>): int {
    var v := RetryCountHeader(headers);
    if !Truthy(v) then 0
    else
      var text := if v.HStr? then v.s else ValueString(v);
      NumberOr(ParseInt(text), 0)
  }

  /** `calculateDelay(n)`: `baseDelay * 2^(n-1)` with back-off, `baseDelay` without. */
  function CalculateDelay(c: Config, n: int): real {
    if !c.exponential then c.baseDelay as real else c.baseDelay as real * Pow2(n - 1)
  }

  function RetryHeaders(headers: Option<Headers>, newCount: int, now: int, errorMessage: string): Headers {
    Spread(headers.GetOr([]), [("retry-count", HStr(IntToString(newCount))),
                               ("retry-timestamp", HStr(IntToString(now))),
                               ("last-error", HStr(errorMessage))])
  }

  function DeadLetterHeaders(c: Config, headers: Option<Headers>, topic: string, err: ErrorInfo, now: int): Headers {
    var stack := if err.stack.Some? && err.stack.value != "" then err.stack.value else "";
    Spread(headers.GetOr([]), [("original-topic", HStr(topic)),
                               ("error", HStr(err.message)),
                               ("error-stack", HStr(stack)),
                               ("failed-at", HStr(IntToString(now))),
                               ("total-retries", HStr(IntToString(c.maxRetries)))])
  }

  /** `handleError(topic, message, error)` at time `now`: one publish, either a
      retry to `topic` or a dead-letter publish to `topic + ".dlq"`, never both,
      with the message's key and value unchanged. */
  function HandleError<K, V>(c: Config, topic: string, m: Message<K, V>, err: ErrorInfo, now: int)
    : (r: Escalation<K, V>)
    ensures |r.publish.records| == 1
    ensures r.publish.records[0].key == m.key && r.publish.records[0].value == m.value
    ensures GetRetryCount(m.headers) < c.maxRetries ==> r.publish.topic == topic
    ensures GetRetryCount(m.headers) >= c.maxRetries ==> r.publish.topic == topic + DeadLetterSuffix && r.sleep.None?
    ensures GetRetryCount(m.headers) < c.maxRetries ==>
              var delay := CalculateDelay(c, GetRetryCount(m.headers) + 1);
              r.sleep == if delay != 0.0 then Some(delay) else None
  {
    var count := GetRetryCount(m.headers);
    if count < c.maxRetries then
      var newCount := count + 1;
      var delay := CalculateDelay(c, newCount);
      Escalation(Publish(topic, [Record(m.key, m.value, RetryHeaders(m.headers, newCount, now, err.message))]),
                 if delay != 0.0 then Some(delay) else None)
    else
      Escalation(Publish(topic + DeadLetterSuffix, [Record(m.key, m.value, DeadLetterHeaders(c, m.headers, topic, err, now))]),
                 None)
  }

  /** A retry publish carries the original headers with exactly three keys
      overwritten: `retry-count`, `retry-timestamp` and `last-error`. */
  lemma RetryHeadersSpec(headers: Option<Headers>, newCount: int, now: int, errorMessage: string, k: string)
    requires headers.Some? ==> DistinctKeys(headers.value)
    ensures DistinctKeys(RetryHeaders(headers, newCount, now, errorMessage))
    ensures Lookup(RetryHeaders(headers, newCount, now, errorMessage), k) ==
              if k == "retry-count" then HStr(IntToString(newCount))
              else if k == "retry-timestamp" then HStr(IntToString(now))
              else if k == "last-error" then HStr(errorMessage)
              else Lookup(headers.GetOr([]), k)
  {
    var extra := [("retry-count", HStr(IntToString(newCount))),
                  ("retry-timestamp", HStr(IntToString(now))),
                  ("last-error", HStr(errorMessage))];
    assert extra[0].0 in KeySet(extra) && extra[1].0 in KeySet(extra) && extra[2].0 in KeySet(extra);
    LookupSpread(headers.GetOr([]), extra, k);
    if k in KeySet(extra) {
      var i :| 0 <= i < |extra| && extra[i].0 == k;
      LookupOfDistinct(extra, i);
    }
  }

  /** The five metadata keys of a dead-letter publish are distinct. */
  lemma DeadLetterKeysDistinct(a: HeaderValue, b: HeaderValue, c: HeaderValue, d: HeaderValue, e: HeaderValue)
    ensures DistinctKeys([("original-topic", a), ("error", b), ("error-stack", c), ("failed-at", d), ("total-retries", e)])
  {
  }

  /** A dead-letter publish carries the original headers plus the failure
      metadata; `total-retries` is the configured ceiling, not the count seen. */
  lemma DeadLetterHeadersSpec(c: Config, headers: Option<Headers>, topic: string, err: ErrorInfo, now: int, k: string)
    requires headers.Some? ==> DistinctKeys(headers.value)
    ensures Lookup(DeadLetterHeaders(c, headers, topic, err, now), k) ==
              if k == "original-topic" then HStr(topic)
              else if k == "error" then HStr(err.message)
              else if k == "error-stack" then HStr(if err.stack.Some? then err.stack.value else "")
              else if k == "failed-at" then HStr(IntToString(now))
              else if k == "total-retries" then HStr(IntToString(c.maxRetries))
              else Lookup(headers.GetOr([]), k)
  {
    var stack := if err.stack.Some? && err.stack.value != "" then err.stack.value else "";
    var extra := [("original-topic", HStr(topic)), ("error", HStr(err.message)), ("error-stack", HStr(stack)),
                  ("failed-at", HStr(IntToString(now))), ("total-retries", HStr(IntToString(c.maxRetries)))];
    DeadLetterKeysDistinct(extra[0].1, extra[1].1, extra[2].1, extra[3].1, extra[4].1);
    LookupSpread(headers.GetOr([]), extra, k);
    var i := if k == "original-topic" then 0 else if k == "error" then 1 else if k == "error-stack" then 2
             else if k == "failed-at" then 3 else if k == "total-retries" then 4 else 5;
    if i < 5 {
      assert extra[i].0 == k && k in KeySet(extra);
      LookupOfDistinct(extra, i);
    } else {
      assert forall j :: 0 <= j < |extra| ==> extra[j].0 != k;
    }
  }

  /** With back-off each retry waits twice as long as the one before, starting
      from `baseDelay` for the first. */
  lemma BackoffDoubles(c: Config, n: int)
    requires c.exponential
    ensures CalculateDelay(c, n + 1) == 2.0 * CalculateDelay(c, n)
    ensures CalculateDelay(c, 1) == c.baseDelay as real
  {
    Pow2Succ(n - 1);
  }

  /** A retry's `retry-count` header is the new count, whatever headers the
      message had. */
  lemma RetryCountWritten(headers: Option<Headers>, newCount: int, now: int, errorMessage: string)
    ensures Lookup(RetryHeaders(headers, newCount, now, errorMessage), "retry-count") == HStr(IntToString(newCount))
  {
    var base := headers.GetOr([]);
    var s1 := Set(base, "retry-count", HStr(IntToString(newCount)));
    var s2 := Set(s1, "retry-timestamp", HStr(IntToString(now)));
    var s3 := Set(s2, "last-error", HStr(errorMessage));
    var extra := [("retry-count", HStr(IntToString(newCount))), ("retry-timestamp", HStr(IntToString(now))),
                  ("last-error", HStr(errorMessage))];
    assert Spread(s3, extra[3..]) == s3;
    assert Spread(s2, extra[2..]) == s3;
    assert Spread(s1, extra[1..]) == s3;
    LookupSetSame(base, "retry-count", HStr(IntToString(newCount)));
    LookupSetOther(s1, "retry-timestamp", HStr(IntToString(now)), "retry-count");
    LookupSetOther(s2, "last-error", HStr(errorMessage), "retry-count");
  }

  /** How a count is read: no headers, no `retry-count` key or a null header
      read 0; a string header reads as `parseInt` gives it, NaN reading 0. */
  lemma RetryCountReads(headers: Option<Headers>, s: string)
    ensures headers.None? ==> GetRetryCount(headers) == 0
    ensures headers.Some? && (forall i :: 0 <= i < |headers.value| ==> headers.value[i].0 != "retry-count")
            ==> GetRetryCount(headers) == 0
    ensures headers.Some? && Lookup(headers.value, "retry-count") == HNull ==> GetRetryCount(headers) == 0
    ensures headers.Some? && Lookup(headers.value, "retry-count") == HStr(s) ==>
              GetRetryCount(headers) == NumberOr(ParseInt(s), 0)
    ensures headers.Some? && Lookup(headers.value, "retry-count") == HBytes(s) ==>
              GetRetryCount(headers) == NumberOr(ParseInt(s), 0)
    ensures headers.Some? && Lookup(headers.value, "retry-count").HList? ==>
              GetRetryCount(headers) == NumberOr(ParseInt(ListString(Lookup(headers.value, "retry-count").items)), 0)
    ensures headers.Some? && Lookup(headers.value, "retry-count").HOther? ==>
              var v := Lookup(headers.value, "retry-count");
              GetRetryCount(headers) == if v.truthy then NumberOr(ParseInt(v.text), 0) else 0
  {
    assert ParseInt("") == None by {
      assert TrimStart("") == "" && DigitPrefixLength("") == 0;
    }
  }

  /** The transport does not change the count a message reads: a string header
      delivered as a buffer reads the same. */
  lemma DeliveredCount(h: Headers)
    ensures GetRetryCount(Some(Delivered(h))) == GetRetryCount(Some(h))
  {
    LookupDelivered(h, "retry-count");
    var v := Lookup(h, "retry-count");
    if v.HStr? {
      RetryCountReads(Some(h), v.s);
      RetryCountReads(Some(Delivered(h)), v.s);
    }
  }

  /** The count written by a retry is the count the next call reads. */
  lemma RetryCountRoundTrip(headers: Option<Headers>, newCount: int, now: int, errorMessage: string)
    ensures GetRetryCount(Some(RetryHeaders(headers, newCount, now, errorMessage))) == newCount
  {
    RetryCountWritten(headers, newCount, now, errorMessage);
    ParseIntOfIntToString(newCount);
  }

  /** The message a failed retry hands back: the record just published. */
  function Republished<K, V>(c: Config, topic: string, m: Message<K, V>, err: ErrorInfo, now: int): Message<K, V> {
    var rec := HandleError(c, topic, m, err, now).publish.records[0];
    Message(rec.key, rec.value, Some(rec.headers))
  }

  /** A published message as the consumer of its topic receives it: the
      transport delivers its string headers as buffers. */
  function Consumed<K, V>(m: Message<K, V>): Message<K, V> {
    Message(m.key, m.value, Some(Delivered(m.headers.GetOr([]))))
  }

  /** The message after `k` retries of a message that had none, as the topic's
      consumer receives it each time: the i-th retry writes i into
      `retry-count`. */
  function Retried<K, V>(m: Message<K, V>, err: ErrorInfo, now: int, k: nat): Message<K, V>
    decreases k
  {
    if k == 0 then m
    else
      var prev := Retried(m, err, now, k - 1);
      Message(prev.key, prev.value, Some(Delivered(RetryHeaders(prev.headers, k, now, err.message))))
  }

  /** Below the ceiling, a failure of a message whose count reads n - 1
      hands back the message with n written into its headers. */
  lemma RetryStep<K, V>(c: Config, topic: string, prev: Message<K, V>, err: ErrorInfo, now: int, n: int)
    requires GetRetryCount(prev.headers) + 1 == n <= c.maxRetries
    ensures Republished(c, topic, prev, err, now) ==
              Message(prev.key, prev.value, Some(RetryHeaders(prev.headers, n, now, err.message)))
  {
    var h := RetryHeaders(prev.headers, n, now, err.message);
    assert HandleError(c, topic, prev, err, now).publish.records[0] == Record(prev.key, prev.value, h);
  }

  /** Retries never change the key or the value. */
  lemma {:induction false} RetriedKeepsRecord<K, V>(m: Message<K, V>, err: ErrorInfo, now: int, k: nat)
    ensures Retried(m, err, now, k).key == m.key && Retried(m, err, now, k).value == m.value
    decreases k
  {
    if k > 0 {
      RetriedKeepsRecord(m, err, now, k - 1);
    }
  }

  /** After k retries of a message that had none, the count reads k. */
  lemma RetriedCount<K, V>(m: Message<K, V>, err: ErrorInfo, now: int, k: nat)
    requires GetRetryCount(m.headers) == 0
    ensures GetRetryCount(Retried(m, err, now, k).headers) == k
  {
    if k > 0 {
      var prev := Retried(m, err, now, k - 1);
      RetryCountRoundTrip(prev.headers, k, now, err.message);
      DeliveredCount(RetryHeaders(prev.headers, k, now, err.message));
    }
  }

  /** The k-th retry of a fresh message is what the k-th failure republishes,
      as the topic's consumer receives it. */
  lemma RetriedIsRepublished<K, V>(c: Config, topic: string, m: Message<K, V>, err: ErrorInfo, now: int, k: nat)
    requires GetRetryCount(m.headers) == 0
    requires 0 < k <= c.maxRetries
    ensures Retried(m, err, now, k) == Consumed(Republished(c, topic, Retried(m, err, now, k - 1), err, now))
  {
    RetriedCount(m, err, now, k - 1);
    RetriedFrom(c, topic, m, err, now, k, Retried(m, err, now, k - 1));
  }

  lemma RetriedFrom<K, V>(c: Config, topic: string, m: Message<K, V>, err: ErrorInfo, now: int, k: nat, prev: Message<K, V>)
    requires 0 < k <= c.maxRetries
    requires prev == Retried(m, err, now, k - 1) && GetRetryCount(prev.headers) == k - 1
    ensures Retried(m, err, now, k) == Consumed(Republished(c, topic, prev, err, now))
  {
    RetryStep(c, topic, prev, err, now, k);
  }

  /** Escalation from a fresh message, each failure's republished message fed
      back in as its consumer receives it: the k-th failure republishes to the original topic with
      `retry-count` k for k = 1..maxRetries, and the next failure goes to the
      dead-letter topic. Key and value never change. */
  lemma RetriesThenDeadLetter<K, V>(c: Config, topic: string, m: Message<K, V>, err: ErrorInfo, now: int, k: nat)
    requires GetRetryCount(m.headers) == 0
    requires k <= c.maxRetries
    ensures var mk := Retried(m, err, now, k);
            && GetRetryCount(mk.headers) == k
            && mk.key == m.key && mk.value == m.value
            && (k > 0 ==> mk == Consumed(Republished(c, topic, Retried(m, err, now, k - 1), err, now)))
            && (k < c.maxRetries ==> HandleError(c, topic, mk, err, now).publish.topic == topic)
            && (k == c.maxRetries ==> HandleError(c, topic, mk, err, now).publish.topic == topic + DeadLetterSuffix)
  {
    RetriedKeepsRecord(m, err, now, k);
    RetriedCount(m, err, now, k);
    if k > 0 {
      RetriedIsRepublished(c, topic, m, err, now, k);
    }
  }
}

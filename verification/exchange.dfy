/** How the components meet over the transport: a request from the
    request-reply engine, through the consumer service's handler, back as a
    fire-and-forget reply the engine settles; an error envelope's journey; the
    dead-letter metadata from the retry escalator to the dead-letter listener;
    and where the components' header decoders disagree. */
module Exchange {
  import opened Wrappers
  import opened Headers
  import opened Numeric
  import opened Errors
  import opened Wire
  import FireAndForget
  import RequestReply
  import ConsumerService
  import Retry
  import DeadLetter

  /** The headers of a responder's reply: the publisher's three base headers
      with the type promoted to "request-reply", then the correlation id. */
  function ReplyHeaders(id: string, messageId: string, now: int): Headers {
    [("message-id", HStr(messageId)), ("message-type", HStr(FireAndForget.RequestReplyType)),
     ("timestamp", HStr(IntToString(now))), (FireAndForget.CorrelationIdKey, HStr(id))]
  }

  lemma ReplyHeadersOfSend(id: string, messageId: string, now: int)
    ensures FireAndForget.SendHeaders(Some([(FireAndForget.CorrelationIdKey, HStr(id))]), messageId, now)
            == ReplyHeaders(id, messageId, now)
  {
    var custom := [(FireAndForget.CorrelationIdKey, HStr(id))];
    LowerOfLowercase(FireAndForget.CorrelationIdKey);
    assert FindKeyIgnoringCase(custom, FireAndForget.CorrelationIdKey) == Some(FireAndForget.CorrelationIdKey);
    assert FireAndForget.DetectMessageType(Some(custom)) == FireAndForget.RequestReplyType;
    var base := FireAndForget.BaseHeaders(messageId, FireAndForget.RequestReplyType, now);
    assert |FireAndForget.CorrelationIdKey| == 14;
    SetAbsent(base, FireAndForget.CorrelationIdKey, HStr(id));
    assert custom[1..] == [];
    assert FireAndForget.ApplyCustom(base, custom)
           == FireAndForget.ApplyCustom(Set(base, FireAndForget.CorrelationIdKey, HStr(id)), []);
  }

  /** The responder finds the request's reply topic and correlation id. */
  lemma RequestReachesResponder(id: string, responseTopic: string, now: int)
    requires id != "" && responseTopic != ""
    ensures ConsumerService.ReplyTarget(Some(Delivered(RequestReply.RequestHeaders(id, responseTopic, now, None))))
            == Some((responseTopic, id))
  {
    var h := RequestReply.RequestHeaders(id, responseTopic, now, None);
    assert h == [("correlation-id", HStr(id)), ("reply-to", HStr(responseTopic)),
                 ("message-type", HStr("request-reply")), ("timestamp", HStr(IntToString(now)))];
    LookupDelivered(h, "correlation-id");
    LookupDelivered(h, "reply-to");
  }

  /** The engine reads the reply's correlation id back. */
  lemma ReplyHeadersRead(id: string, messageId: string, now: int)
    ensures var h := ReplyHeaders(id, messageId, now);
            && Lookup(h, "message-type") == HStr("request-reply")
            && Lookup(h, "correlation-id") == HStr(id)
  {
    var h := ReplyHeaders(id, messageId, now);
    assert |"message-id"| == 10 && |"message-type"| == 12 && |"timestamp"| == 9 && |"correlation-id"| == 14;
    var k := "correlation-id";
    assert h[0].0 != k && h[1].0 != k && h[2].0 != k;
    assert Lookup(h, k) == Lookup(h[1..], k);
    assert Lookup(h[1..], k) == Lookup(h[2..], k) by { assert h[1..][1..] == h[2..]; }
    assert Lookup(h[2..], k) == Lookup(h[3..], k) by { assert h[2..][1..] == h[3..]; }
    assert h[3..] == [(k, HStr(id))];
  }

  lemma ReplyHeadersFind(id: string, messageId: string, now: int)
    ensures FindKeyIgnoringCase(ReplyHeaders(id, messageId, now), "correlation-id") == Some("correlation-id")
  {
    var h := ReplyHeaders(id, messageId, now);
    LowerOfLowercase("correlation-id");
    assert |"correlation-id"| == 14;
    FindKeyAt(h, "correlation-id", 3);
  }

  lemma ReplyMatchesRequest(id: string, messageId: string, now: int, env: Envelope)
    requires id != ""
    ensures RequestReply.ReplyCorrelationId(RequestReply.Inbound(Some(env), Some(Delivered(ReplyHeaders(id, messageId, now)))))
            == Some(id)
  {
    var h := ReplyHeaders(id, messageId, now);
    var d := Delivered(h);
    ReplyHeadersRead(id, messageId, now);
    ReplyHeadersFind(id, messageId, now);
    LookupDelivered(h, "message-type");
    LookupDelivered(h, "correlation-id");
    FindKeyDelivered(h, "correlation-id");
    assert Lookup(d, "message-type") == HBytes("request-reply");
    assert Lookup(d, "correlation-id") == HBytes(id);
    assert FindKeyIgnoringCase(d, "correlation-id") == Some("correlation-id");
  }



  /** A responder whose steps all succeed. */
  function Answering(request: Json, data: Json): ConsumerService.Behaviour {
    ConsumerService.Behaviour(Ok(request), Ok(data), None, None)
  }

  /** The responder's side: a delivered request whose handler answers `data`
      produces exactly one reply, the success envelope, sent to the request's
      reply topic under its correlation id. */
  lemma ResponderAnswers(id: string, responseTopic: string, now: int, commandTopic: string, text: string,
                         request: Json, data: Json, replyIds: (string, string), now': int)
    requires id != "" && responseTopic != ""
    ensures var m := ConsumerService.Message(Some(text), Some(Delivered(RequestReply.RequestHeaders(id, responseTopic, now, None))));
            var consumed := ConsumerService.HandleMessage(commandTopic, m, Answering(request, data), replyIds, now');
            && consumed.delivered.Some? && consumed.delivered.value.message == request
            && consumed.escaped.None? && consumed.swallowed.None?
            && consumed.replies == [ConsumerService.Reply((responseTopic, id), SuccessResponse(data, now'), replyIds.0, now')]
  {
    var h := RequestReply.RequestHeaders(id, responseTopic, now, None);
    var m := ConsumerService.Message(Some(text), Some(Delivered(h)));
    var b := Answering(request, data);
    assert h == [("correlation-id", HStr(id)), ("reply-to", HStr(responseTopic)),
                 ("message-type", HStr("request-reply")), ("timestamp", HStr(IntToString(now)))];
    RequestReachesResponder(id, responseTopic, now);
    assert !ConsumerService.HasNullHeader(m.headers);
    var consumed := ConsumerService.HandleMessage(commandTopic, m, b, replyIds, now');
    assert ConsumerService.HasSuccessReply(consumed.replies);
    assert !ConsumerService.HasErrorReply(consumed.replies);
  }

  /** The requester's side: the success reply to a pending request settles
      exactly that request with the reply's data. */
  lemma EngineSettlesReply(e: RequestReply.Engine, id: string, data: Json, messageId: string, now: int)
    requires id != "" && id in e.table
    ensures var settled := RequestReply.HandleResponse(e, RequestReply.Inbound(
              Some(Transmit(SuccessResponse(data, now))), Some(Delivered(ReplyHeaders(id, messageId, now)))));
            && settled.table == e.table - {id}
            && settled.outcomes == e.outcomes[id := RequestReply.Resolved(data)]
  {
    ReplyMatchesRequest(id, messageId, now, Transmit(SuccessResponse(data, now)));
  }

  /** The request record the engine publishes carries exactly the base
      request headers when the caller adds none. */
  lemma RequestRecordHeaders(e: RequestReply.Engine, id: string, now: int, timeout: Option<int>,
                             commandTopic: string, responseTopic: string, request: Json)
    ensures RequestReply.Send(e, id, now, timeout, commandTopic, responseTopic, request, None).publish.records[0].headers
            == RequestReply.RequestHeaders(id, responseTopic, now, None)
  {
  }

  /** The reply record the responder publishes carries the reply headers. */
  lemma ReplyRecordHeaders(target: (string, string), response: Response, messageId: string, now: int)
    ensures ConsumerService.Reply(target, response, messageId, now).records[0].headers
            == ReplyHeaders(target.1, messageId, now)
  {
    ReplyHeadersOfSend(target.1, messageId, now);
  }

  /** The success reply the responder publishes for request `id`, once read
      back by the engine, settles exactly that request. */
  lemma ReplyRecordSettles(e: RequestReply.Engine, id: string, responseTopic: string, data: Json, messageId: string,
                           now: int)
    requires id != "" && id in e.table
    ensures var reply := ConsumerService.Reply((responseTopic, id), SuccessResponse(data, now), messageId, now).records[0];
            var settled := RequestReply.HandleResponse(
              e, RequestReply.Inbound(Some(Transmit(reply.value)), Some(Delivered(reply.headers))));
            && settled.table == e.table - {id}
            && settled.outcomes == e.outcomes[id := RequestReply.Resolved(data)]
  {
    ReplyRecordHeaders((responseTopic, id), SuccessResponse(data, now), messageId, now);
    EngineSettlesReply(e, id, data, messageId, now);
  }

  /** A fire-and-forget message sent without a usable correlation id (and
      without a caller-supplied `message-type`) that reaches a response topic
      arrives with the type "fire-and-forget" as a buffer; the engine reads it
      as text and ignores the message, whatever its value. */
  lemma FireAndForgetIgnoredByEngine<T>(e: RequestReply.Engine, topic: string, message: T, custom: Option<Headers>,
                                        messageId: string, now: int, value: Option<Envelope>)
    requires custom.Some? ==> DistinctKeys(custom.value)
    requires FireAndForget.DetectMessageType(custom) == FireAndForget.FireAndForgetType
    requires custom.Some? ==> Lookup(custom.value, "message-type").HUndef?
    ensures var h := FireAndForget.Send(topic, message, custom, messageId, now).records[0].headers;
            && Lookup(Delivered(h), "message-type") == HBytes(FireAndForget.FireAndForgetType)
            && RequestReply.HandleResponse(e, RequestReply.Inbound(value, Some(Delivered(h)))) == e
  {
    var h := FireAndForget.SendHeaders(custom, messageId, now);
    FireAndForget.SendHeaderLookup(custom, messageId, now, "message-type");
    var base := FireAndForget.BaseHeaders(messageId, FireAndForget.FireAndForgetType, now);
    assert |"message-id"| == 10 && |"message-type"| == 12;
    assert Lookup(base, "message-type") == HStr(FireAndForget.FireAndForgetType) by {
      assert base[0].0 != "message-type";
      assert Lookup(base, "message-type") == Lookup(base[1..], "message-type");
    }
    LookupDelivered(h, "message-type");
  }

  /** Registering a fresh request and then removing it gives back the table. */
  lemma SendThenRemove(e: RequestReply.Engine, id: string, now: int, timeout: Option<int>, commandTopic: string,
                       responseTopic: string, request: Json)
    requires RequestReply.Fresh(e, id)
    ensures var sent := RequestReply.Send(e, id, now, timeout, commandTopic, responseTopic, request, None);
            && id in sent.engine.table
            && sent.engine.table - {id} == e.table
            && sent.engine.outcomes == e.outcomes
  {
  }

  /** One request-reply exchange end to end: the engine publishes a request
      under a fresh id; the consumer service, whose handler answers `data`,
      publishes one reply to the response topic; the engine, reading that reply,
      removes the request and resolves it with `data`, so its pending count is
      back where it was. */
  lemma RequestReplyRoundTrip(e: RequestReply.Engine, id: string, now: int, timeout: Option<int>,
                              commandTopic: string, responseTopic: string, request: Json,
                              text: string, data: Json, replyIds: (string, string), now': int)
    requires RequestReply.Fresh(e, id) && id != "" && responseTopic != ""
    ensures var sent := RequestReply.Send(e, id, now, timeout, commandTopic, responseTopic, request, None);
            var rec := sent.publish.records[0];
            var consumed := ConsumerService.HandleMessage(
              commandTopic, ConsumerService.Message(Some(text), Some(Delivered(rec.headers))), Answering(rec.value, data),
              replyIds, now');
            && consumed.delivered.Some? && consumed.delivered.value.message == request
            && |consumed.replies| == 1 && consumed.replies[0].topic == responseTopic
            && var reply := consumed.replies[0].records[0];
               var settled := RequestReply.HandleResponse(
                 sent.engine, RequestReply.Inbound(Some(Transmit(reply.value)), Some(Delivered(reply.headers))));
               && settled.table == e.table
               && settled.outcomes == e.outcomes[id := RequestReply.Resolved(data)]
               && RequestReply.PendingCount(settled) == RequestReply.PendingCount(e)
  {
    var sent := RequestReply.Send(e, id, now, timeout, commandTopic, responseTopic, request, None);
    var rec := sent.publish.records[0];
    RequestRecordHeaders(e, id, now, timeout, commandTopic, responseTopic, request);
    ResponderAnswers(id, responseTopic, now, commandTopic, text, request, data, replyIds, now');
    SendThenRemove(e, id, now, timeout, commandTopic, responseTopic, request);
    ReplyRecordSettles(sent.engine, id, responseTopic, data, replyIds.0, now');
  }

  /** A handler error whose envelope fields are all present (a non-empty
      message and error name, a non-zero status code) reaches the requester
      as an `RpcRequestError` with exactly those fields. */
  lemma HandlerErrorReachesCaller(t: Thrown, now: int)
    requires ConsumerService.MapError(t).message != "" && ConsumerService.MapError(t).errorName != ""
    requires ConsumerService.MapError(t).statusCode != 0
    ensures var f := ConsumerService.MapError(t);
            RequestReply.Settle(Transmit(ConsumerService.ErrorResponseFor(t, now)))
            == RequestReply.Rejected(RequestReply.RpcRejection(RpcRequestError(f.message, f.statusCode, f.errorName)))
  {
  }

  /** An `RpcException` thrown by a handler with a full object payload is
      rebuilt on the requester's side field for field. */
  lemma RpcExceptionReachesCaller(statusCode: int, error: string, message: string, info: ErrorInfo, now: int)
    requires statusCode != 0 && error != "" && message != ""
    ensures RequestReply.Settle(Transmit(ConsumerService.ErrorResponseFor(
              RpcExc(ObjectPayload(Some(statusCode), Some(error), Some(message)), info), now)))
            == RequestReply.Rejected(RequestReply.RpcRejection(RpcRequestError(message, statusCode, error)))
  {
  }

  /** The journey is lossy at JavaScript's falsy values: an error whose status
      code is 0 and whose message is empty reaches the requester with status
      500 and its name as the message. */
  lemma ErrorEnvelopeLossy(name: string, now: int)
    requires name != ""
    ensures RequestReply.Settle(Transmit(ConsumerService.ErrorResponseFor(ErrorObj(ErrorInfo(name, "", None, Some(0))), now)))
            == RequestReply.Rejected(RequestReply.RpcRejection(RpcRequestError(name, 500, name)))
  {
  }

  /** A message escalated to the dead-letter topic, once delivered to the
      dead-letter listener, hands the callback the original topic, the error
      message and stack, the failure time and the configured retry ceiling,
      with key and value unchanged (empty texts fall back to the listener's
      defaults). */
  lemma DeadLetterRoundTrip<K, V>(c: Retry.Config, topic: string, m: Retry.Message<K, V>, err: ErrorInfo, now: int,
                                  partition: int, offset: string, failure: Option<Thrown>)
    requires m.headers.Some? ==> DistinctKeys(m.headers.value)
    requires Retry.GetRetryCount(m.headers) >= c.maxRetries
    ensures var p := Retry.HandleError(c, topic, m, err, now).publish;
            var rec := p.records[0];
            var got := DeadLetter.HandleDlqMessage(
              DeadLetter.Delivery(p.topic, partition, rec.key, rec.value, Some(Delivered(rec.headers)), offset), failure).passed;
            && got.topic == topic + Retry.DeadLetterSuffix
            && got.key == m.key && got.value == m.value
            && got.originalTopic == TextOr(topic, "unknown")
            && got.error == TextOr(err.message, "Unknown error")
            && got.errorStack == (if err.stack.Some? then err.stack.value else "")
            && got.failedAt == Some(now)
            && got.totalRetries == Some(c.maxRetries)
  {
    var p := Retry.HandleError(c, topic, m, err, now).publish;
    var h := p.records[0].headers;
    assert h == Retry.DeadLetterHeaders(c, m.headers, topic, err, now);
    Retry.DeadLetterHeadersSpec(c, m.headers, topic, err, now, "original-topic");
    DeliveredText(c, m.headers, topic, err, now, "original-topic", topic);
    Retry.DeadLetterHeadersSpec(c, m.headers, topic, err, now, "error");
    DeliveredText(c, m.headers, topic, err, now, "error", err.message);
    Retry.DeadLetterHeadersSpec(c, m.headers, topic, err, now, "error-stack");
    DeliveredText(c, m.headers, topic, err, now, "error-stack", if err.stack.Some? then err.stack.value else "");
    Retry.DeadLetterHeadersSpec(c, m.headers, topic, err, now, "failed-at");
    DeliveredText(c, m.headers, topic, err, now, "failed-at", IntToString(now));
    Retry.DeadLetterHeadersSpec(c, m.headers, topic, err, now, "total-retries");
    DeliveredText(c, m.headers, topic, err, now, "total-retries", IntToString(c.maxRetries));
    ParseIntOfIntToString(now);
    ParseIntOfIntToString(c.maxRetries);
  }

  /** The dead-letter listener reads each metadata header of a dead-letter
      publish back as the text the escalator wrote. */
  lemma DeliveredText(c: Retry.Config, headers: Option<Headers>, topic: string, err: ErrorInfo, now: int,
                      key: string, text: string)
    requires headers.Some? ==> DistinctKeys(headers.value)
    requires Lookup(Retry.DeadLetterHeaders(c, headers, topic, err, now), key) == HStr(text)
    ensures DeadLetter.GetHeaderValue(Delivered(Retry.DeadLetterHeaders(c, headers, topic, err, now)), key) == Some(text)
  {
    LookupDelivered(Retry.DeadLetterHeaders(c, headers, topic, err, now), key);
  }

  /** The request-reply engine reads a matched correlation-id header holding
      an empty list as the id "undefined". */
  lemma EngineReadsEmptyList(h: Headers, env: Envelope, k: string)
    requires FindKeyIgnoringCase(h, "correlation-id") == Some(k)
    requires Lookup(h, k) == HList([])
    requires RequestReply.MessageTypeText(Lookup(h, "message-type")) != RequestReply.FireAndForgetType
    ensures RequestReply.ReplyCorrelationId(RequestReply.Inbound(Some(env), Some(h))) == Some("undefined")
  {
    RequestReply.ReplyCorrelationIdOfMatch(RequestReply.Inbound(Some(env), Some(h)), k);
    assert RequestReply.DecodeCorrelationId(HList([])) == "undefined";
  }

  /** The components decode a correlation-id header holding an empty list
      differently: the consumer service sees no correlation id and sends no
      reply, the publisher does not count it as a correlation id, while the
      request-reply engine reads the id "undefined". */
  lemma EmptyListCorrelationId(h: Headers, env: Envelope)
    requires FindKeyIgnoringCase(h, "correlation-id") == Some("correlation-id")
    requires Lookup(h, "correlation-id") == HList([])
    requires RequestReply.MessageTypeText(Lookup(h, "message-type")) != RequestReply.FireAndForgetType
    ensures RequestReply.ReplyCorrelationId(RequestReply.Inbound(Some(env), Some(h))) == Some("undefined")
    ensures ConsumerService.GetHeaderValue(Some(h), "correlation-id").None?
    ensures ConsumerService.ReplyTarget(Some(h)).None?
    ensures !FireAndForget.CountsAsCorrelationId(Lookup(h, "correlation-id"))
  {
    EngineReadsEmptyList(h, env, "correlation-id");
  }
}

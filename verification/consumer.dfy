/** The consumer service (src/main/consumer/kafka-consumer.service.ts): the
    responder side of request-reply.

    Each message is parsed and passed to the application's handler together
    with a string-valued copy of its headers. When the message names both a
    correlation id and a reply topic, the handler's result, or the error it
    raised mapped to an error envelope, is published back through the
    fire-and-forget publisher with the correlation id as the only custom header.
    JSON parsing, the handler and the publishes are reduced to their outcomes,
    which the model takes as inputs. */
module ConsumerService {
  import opened Wrappers
  import opened Headers
  import opened Errors
  import opened Wire
  import FireAndForget
  import DeadLetter

  const GroupIdMessage := "groupId must be provided in KafkaConsumerServiceOptions"
  const InitFailureMessage := "Failed to initialize Kafka Consumer"
  const ErrorReplyFailureMessage := "Failed to send error response"
  /** The error reply's starting message; a literal of its own, equal in text
      to the `fromError` default but not shared with it. */
  const UnknownErrorMessage := "Unknown error occurred"

  /** What V8 throws for `null.toString()`. */
  const NullHeaderError := ErrorObj(ErrorInfo("TypeError", "Cannot read properties of null (reading 'toString')", None, None))

  datatype ConsumerOptions = ConsumerOptions(groupId: string, topics: seq<string>)

  /** The service's state: the group id of the consumer it created, whether
      that consumer subscribed and ran, and how often it was disconnected. */
  datatype Service = Service(options: ConsumerOptions, consumer: Option<string>, subscribed: bool, disconnects: nat)

  datatype InitResult = InitResult(service: Service, error: Option<KafkaClientError>)

  /** One inbound message: its value (`None` for a `null` value) and headers. */
  datatype Message = Message(value: Option<string>, headers: Option<Headers>)

  /** The outcomes of the steps `handleMessage` awaits: `JSON.parse` of the
      value, the application handler, the success reply's publish and the
      error reply's publish. */
  datatype Behaviour = Behaviour(
    parsed: Result<Json, Thrown>,
    handled: Result<Json, Thrown>,
    replyFailure: Option<Thrown>,
    errorReplyFailure: Option<Thrown>)

  /** The application handler's arguments. */
  datatype HandlerCall = HandlerCall(topic: string, message: Json, headers: Headers)

  /** What one `handleMessage` call did: the handler call it made, the reply
      publishes it attempted in order, the error that escaped it and the error
      it logged and swallowed. */
  datatype Consumed = Consumed(
    delivered: Option<HandlerCall>,
    replies: seq<Publish<string, Response>>,
    escaped: Option<Thrown>,
    swallowed: Option<KafkaClientError>)

  /** The status code, error name and message of an error envelope. */
  datatype ErrorFields = ErrorFields(statusCode: int, errorName: string, message: string)

  function NewService(options: ConsumerOptions): (s: Service)
    ensures s.consumer.None? && !s.subscribed && s.disconnects == 0
  {
    Service(options, None, false, 0)
  }

  /** `onModuleInit()` given the outcome of `getClient()` (`clientError`) and the
      failure, if any, of connecting, subscribing or running the consumer. A
      missing group id is refused before anything else; the client's own error
      reaches the caller unchanged; any other failure is wrapped with
      "Failed to initialize Kafka Consumer". A consumer, once created, stays
      assigned even when starting it fails. */
  function OnModuleInit(s: Service, clientError: Option<KafkaClientError>, startFailure: Option<Thrown>): (r: InitResult)
    ensures s.options.groupId == "" ==>
              r.service == s && r.error == Some(KafkaClientError(GroupIdMessage, Some("INVALID_CONSUMER_OPTIONS"), NoDetails))
    ensures s.options.groupId != "" && clientError.Some? ==> r.service == s && r.error == clientError
    ensures s.options.groupId != "" && clientError.None? ==> r.service.consumer == Some(s.options.groupId)
    ensures r.service.subscribed <==> s.subscribed || r.error.None?
    ensures r.error.None? <==> s.options.groupId != "" && clientError.None? && startFailure.None?
    ensures s.options.groupId != "" && clientError.None? && startFailure.Some? ==>
              r.error == Some(FromError(startFailure.value, InitFailureMessage))
  {
    if s.options.groupId == "" then
      InitResult(s, Some(KafkaClientError(GroupIdMessage, Some("INVALID_CONSUMER_OPTIONS"), NoDetails)))
    else if clientError.Some? then
      InitResult(s, Some(FromError(ClientError(clientError.value), InitFailureMessage)))
    else
      var created := s.(consumer := Some(s.options.groupId));
      if startFailure.Some? then InitResult(created, Some(FromError(startFailure.value, InitFailureMessage)))
      else InitResult(created.(subscribed := true), None)
  }

  /** `onModuleDestroy()`: disconnects the consumer when one was created. */
  function OnModuleDestroy(s: Service): (r: Service)
    ensures r.consumer == s.consumer && r.subscribed == s.subscribed
    ensures s.consumer.None? ==> r.disconnects == s.disconnects
    ensures s.consumer.Some? ==> r.disconnects == s.disconnects + 1
  {
    if s.consumer.Some? then s.(disconnects := s.disconnects + 1) else s
  }

  /** This service's `getHeaderValue(headers, key)`. */
  function GetHeaderValue(h: Option<Headers>, key: string): (r: Option<string>)
    ensures h.None? ==> r.None?
    ensures h.Some? ==> r == DeadLetter.GetHeaderValue(h.value, key)
  {
    if h.None? then None
    else
      var v := Lookup(h.value, key);
      if !Truthy(v) then None
      else match v
        case HList(items) =>
          (match First(items)
           case EStr(s) => Some(s)
           case ENull => None
           case EUndef => None
           case EBytes(t) => Some(t)
           case EOther(t, _) => Some(t))
        case HStr(s) => Some(s)
        case _ => Some(ValueString(v))
  }

  /** The reply topic and correlation id, when both are present and non-empty. */
  function ReplyTarget(h: Option<Headers>): (r: Option<(string, string)>)
    ensures r.Some? <==> GetHeaderValue(h, "reply-to").Some? && GetHeaderValue(h, "reply-to").value != ""
                         && GetHeaderValue(h, "correlation-id").Some? && GetHeaderValue(h, "correlation-id").value != ""
    ensures r.Some? ==> r.value == (GetHeaderValue(h, "reply-to").value, GetHeaderValue(h, "correlation-id").value)
  {
    var cid := GetHeaderValue(h, "correlation-id");
    var replyTo := GetHeaderValue(h, "reply-to");
    if cid.Some? && cid.value != "" && replyTo.Some? && replyTo.value != "" then Some((replyTo.value, cid.value))
    else None
  }

  /** The string the handler sees for one header value; `None` for `null`,
      whose `toString()` throws. A string, a buffer (as utf-8) or any other
      scalar reads as `String(v)`; a list reads as its first element, that
      element's text when it is a string, a buffer or another value, "" when it
      is null or missing. */
  function HandlerText(v: HeaderValue): (r: Option<string>)
    ensures r.None? <==> v.HNull?
    ensures v.HStr? ==> r == Some(v.s)
    ensures v.HBytes? || v.HOther? ==> r == Some(v.text)
    ensures v.HStr? || v.HBytes? || v.HOther? ==> r == Some(ValueString(v))
    ensures v.HList? ==> r == Some(ElemJoinText(First(v.items)))
    ensures v.HList? && |v.items| > 0 && v.items[0].EStr? ==> r == Some(v.items[0].s)
    ensures v.HList? && (|v.items| == 0 || v.items[0].ENull? || v.items[0].EUndef?) ==> r == Some("")
  {
    match v
    case HList(items) =>
      (match First(items)
       case EStr(s) => Some(s)
       case EBytes(t) => Some(t)
       case EOther(t, _) => Some(t)
       case ENull => Some("")
       case EUndef => Some(""))
    case HStr(s) => Some(s)
    case HBytes(t) => Some(t)
    case HOther(t, _) => Some(t)
    case HNull => None
    case HUndef => Some("")
  }

  predicate HasNullHeader(h: Option<Headers>) {
    h.Some? && exists i :: 0 <= i < |h.value| && h.value[i].1.HNull?
  }

  /** The loop building the handler's header record, writing into `acc`; it
      stops with the `TypeError` at the first `null` value. */
  function HandlerHeadersInto(acc: Headers, entries: Headers): (r: Result<Headers, Thrown>)
    ensures r.Err? <==> exists i :: 0 <= i < |entries| && entries[i].1.HNull?
    ensures r.Err? ==> r.error == NullHeaderError
    decreases |entries|
  {
    if |entries| == 0 then Ok(acc)
    else
      var (k, v) := entries[0];
      if v.HUndef? then
        var r := HandlerHeadersInto(acc, entries[1..]);
        assert forall i :: 0 < i < |entries| ==> entries[i] == entries[1..][i - 1];
        r
      else match HandlerText(v)
        case None => Err(NullHeaderError)
        case Some(s) =>
          var r := HandlerHeadersInto(Set(acc, k, HStr(s)), entries[1..]);
          assert forall i :: 0 < i < |entries| ==> entries[i] == entries[1..][i - 1];
          r
  }

  function HandlerHeaders(h: Option<Headers>): (r: Result<Headers, Thrown>)
    ensures r.Err? <==> HasNullHeader(h)
    ensures h.None? ==> r == Ok([])
  {
    if h.None? then Ok([]) else HandlerHeadersInto([], h.value)
  }

  /** The handler's text for a header as the record holds it: nothing for an
      `undefined` value, the value's text otherwise. */
  function HandlerEntry(v: HeaderValue): HeaderValue {
    if v.HUndef? then HUndef else HStr(HandlerText(v).GetOr(""))
  }

  /** Reading the record the loop builds: each key the message has with a
      defined value holds that value's handler text; every other key reads as
      the record held it before the loop. */
  lemma {:induction false} HandlerHeadersIntoLookup(acc: Headers, entries: Headers, k: string)
    requires DistinctKeys(acc) && DistinctKeys(entries) && !HasNullHeader(Some(entries))
    ensures HandlerHeadersInto(acc, entries).Ok?
    ensures DistinctKeys(HandlerHeadersInto(acc, entries).value)
    ensures Lookup(HandlerHeadersInto(acc, entries).value, k) ==
              if Lookup(entries, k).HUndef? then Lookup(acc, k) else HandlerEntry(Lookup(entries, k))
    decreases |entries|
  {
    if |entries| > 0 {
      var (k0, v0) := entries[0];
      var acc' := if v0.HUndef? then acc else Set(acc, k0, HStr(HandlerText(v0).value));
      if !v0.HUndef? {
        SetKeepsDistinct(acc, k0, HStr(HandlerText(v0).value));
      }
      assert DistinctKeys(entries[1..]) by {
        forall i, j | 0 <= i < j < |entries[1..]| ensures entries[1..][i].0 != entries[1..][j].0 {
          assert entries[1..][i] == entries[i + 1] && entries[1..][j] == entries[j + 1];
        }
      }
      assert !HasNullHeader(Some(entries[1..])) by {
        forall i | 0 <= i < |entries[1..]| ensures !entries[1..][i].1.HNull? {
          assert entries[1..][i] == entries[i + 1];
        }
      }
      assert HandlerHeadersInto(acc, entries) == HandlerHeadersInto(acc', entries[1..]);
      HandlerHeadersIntoLookup(acc', entries[1..], k);
      if k == k0 {
        assert Lookup(entries[1..], k) == HUndef by {
          forall i | 0 <= i < |entries[1..]| ensures entries[1..][i].0 != k {
            assert entries[1..][i] == entries[i + 1];
          }
        }
        if !v0.HUndef? {
          LookupSetSame(acc, k0, HStr(HandlerText(v0).value));
        }
      } else if !v0.HUndef? {
        LookupSetOther(acc, k0, HStr(HandlerText(v0).value), k);
      }
    }
  }

  /** What the handler receives: for a message without `null` headers, each
      key with a defined value maps to that value's handler text, and no
      other key is present. */
  lemma HandlerHeadersLookup(h: Headers, k: string)
    requires DistinctKeys(h) && !HasNullHeader(Some(h))
    ensures HandlerHeaders(Some(h)).Ok?
    ensures Lookup(HandlerHeaders(Some(h)).value, k) == HandlerEntry(Lookup(h, k))
  {
    HandlerHeadersIntoLookup([], h, k);
  }

  /** The catch block's mapping of a thrown value to an error envelope. It
      starts from 500, "InternalServerError" and "Unknown error occurred"; an
      `RpcException` contributes the fields its object payload has, or its
      string payload as the message; any other `Error` contributes its name,
      its message and its own `statusCode` if it has one. */
  function MapError(t: Thrown): (f: ErrorFields)
    ensures t.RpcExc? && t.payload.ObjectPayload? ==>
              f.statusCode == t.payload.statusCode.GetOr(500)
              && f.errorName == t.payload.error.GetOr("InternalServerError")
              && f.message == t.payload.message.GetOr(UnknownErrorMessage)
    ensures t.RpcExc? && t.payload.StringPayload? ==> f == ErrorFields(500, "InternalServerError", t.payload.s)
    ensures t.RpcExc? && t.payload.OtherPayload? ==> f == ErrorFields(500, "InternalServerError", UnknownErrorMessage)
    ensures !t.RpcExc? && AsError(t).Some? ==>
              var e := AsError(t).value;
              f == ErrorFields(e.statusCode.GetOr(500), e.name, e.message)
    ensures AsError(t).None? ==> f == ErrorFields(500, "InternalServerError", UnknownErrorMessage)
  {
    var base := ErrorFields(500, "InternalServerError", UnknownErrorMessage);
    match t
    case RpcExc(payload, _) =>
      (match payload
       case ObjectPayload(sc, err, msg) =>
         var withCode := if sc.Some? then base.(statusCode := sc.value) else base;
         var withName := if err.Some? then withCode.(errorName := err.value) else withCode;
         if msg.Some? then withName.(message := msg.value) else withName
       case StringPayload(s) => base.(message := s)
       case OtherPayload => base)
    case StrValue(_) => base
    case OtherValue(_) => base
    case ClientError(e) => base.(errorName := ErrorName, message := e.message)
    case ErrorObj(e) =>
      var named := base.(errorName := e.name, message := e.message);
      if e.statusCode.Some? then named.(statusCode := e.statusCode.value) else named
  }

  function ErrorResponseFor(t: Thrown, now: int): Response {
    var f := MapError(t);
    ErrorResponse(f.statusCode, f.errorName, f.message, now)
  }

  /** `sendResponse(replyTo, correlationId, response)`: a fire-and-forget send
      whose only custom header is the correlation id. */
  function Reply(target: (string, string), response: Response, messageId: string, now: int): (p: Publish<string, Response>)
    ensures p.topic == target.0 && |p.records| == 1 && p.records[0].value == response
  {
    FireAndForget.Send(target.0, response, Some([(FireAndForget.CorrelationIdKey, HStr(target.1))]), messageId, now)
  }

  /** Whether every awaited step of the `try` block succeeds. */
  predicate Succeeds(b: Behaviour) {
    b.parsed.Ok? && b.handled.Ok? && b.replyFailure.None?
  }

  /** The value the `catch` block receives when some step fails. */
  function Caught(b: Behaviour): Thrown
    requires !Succeeds(b)
  {
    if b.parsed.Err? then b.parsed.error
    else if b.handled.Err? then b.handled.error
    else b.replyFailure.value
  }

  /** The `catch` block: an error reply when there is a reply target; a
      failure of that reply is logged and swallowed. */
  function Recover(call: Option<HandlerCall>, prior: seq<Publish<string, Response>>, target: Option<(string, string)>,
                   t: Thrown, b: Behaviour, messageId: string, now: int): (r: Consumed)
    ensures r.delivered == call && r.escaped.None?
    ensures target.None? ==> r.replies == prior && r.swallowed.None?
    ensures target.Some? ==> r.replies == prior + [Reply(target.value, ErrorResponseFor(t, now), messageId, now)]
    ensures r.swallowed.Some? <==> target.Some? && b.errorReplyFailure.Some?
  {
    if target.None? then Consumed(call, prior, None, None)
    else
      var p := Reply(target.value, ErrorResponseFor(t, now), messageId, now);
      Consumed(call, prior + [p], None,
               if b.errorReplyFailure.Some? then Some(FromError(b.errorReplyFailure.value, ErrorReplyFailureMessage)) else None)
  }

  predicate HasSuccessReply(ps: seq<Publish<string, Response>>) {
    exists i :: 0 <= i < |ps| && |ps[i].records| > 0 && ps[i].records[0].value.SuccessResponse?
  }

  predicate HasErrorReply(ps: seq<Publish<string, Response>>) {
    exists i :: 0 <= i < |ps| && |ps[i].records| > 0 && ps[i].records[0].value.ErrorResponse?
  }

  /** Every reply goes to the reply topic as a single record. */
  predicate RepliesTo(ps: seq<Publish<string, Response>>, topic: string) {
    forall i :: 0 <= i < |ps| ==> ps[i].topic == topic && |ps[i].records| == 1
  }

  /** The kinds of reply in a single success reply. */
  lemma SuccessOnly(p: Publish<string, Response>)
    requires |p.records| == 1 && p.records[0].value.SuccessResponse?
    ensures HasSuccessReply([p]) && !HasErrorReply([p])
  {
    assert [p][0] == p;
  }

  /** The kinds of reply in a single success reply followed by an error reply. */
  lemma SuccessThenError(p: Publish<string, Response>, q: Publish<string, Response>)
    requires |p.records| == 1 && |q.records| == 1
    requires p.records[0].value.SuccessResponse? && q.records[0].value.ErrorResponse?
    ensures HasSuccessReply([p, q]) && HasErrorReply([p, q])
  {
    assert [p, q][0] == p && [p, q][1] == q;
  }

  /** The handler returned `data` and the message names a reply target: the
      success reply, and the `catch` block's error reply after it when that
      publish fails. */
  function AnswerTo(call: HandlerCall, target: (string, string), data: Json, b: Behaviour,
                    replyIds: (string, string), now: int): (r: Consumed)
    requires b.parsed.Ok? && b.handled == Ok(data)
    ensures r.delivered == Some(call) && r.escaped.None?
    ensures 1 <= |r.replies| <= 2 && RepliesTo(r.replies, target.0)
    ensures r.replies[0] == Reply(target, SuccessResponse(data, now), replyIds.0, now)
    ensures HasSuccessReply(r.replies)
    ensures HasErrorReply(r.replies) <==> !Succeeds(b)
    ensures HasErrorReply(r.replies) ==>
              |r.replies| == 2 && r.replies[1] == Reply(target, ErrorResponseFor(Caught(b), now), replyIds.1, now)
    ensures r.swallowed.Some? <==> !Succeeds(b) && b.errorReplyFailure.Some?
  {
    var p := Reply(target, SuccessResponse(data, now), replyIds.0, now);
    if b.replyFailure.None? then
      SuccessOnly(p);
      Consumed(Some(call), [p], None, None)
    else
      var q := Reply(target, ErrorResponseFor(b.replyFailure.value, now), replyIds.1, now);
      var r := Recover(Some(call), [p], Some(target), b.replyFailure.value, b, replyIds.1, now);
      assert r.replies == [p, q];
      SuccessThenError(p, q);
      r
  }

  /** The handler returned `data`: a success reply when there is a reply target,
      and the `catch` block when that reply's publish fails. */
  function Answer(call: HandlerCall, target: Option<(string, string)>, data: Json, b: Behaviour,
                  replyIds: (string, string), now: int): (r: Consumed)
    requires b.parsed.Ok? && b.handled == Ok(data)
    ensures r.delivered == Some(call) && r.escaped.None?
    ensures target.None? ==> r.replies == [] && r.swallowed.None?
    ensures target.Some? ==> 1 <= |r.replies| <= 2 && RepliesTo(r.replies, target.value.0)
                             && r.replies[0] == Reply(target.value, SuccessResponse(data, now), replyIds.0, now)
    ensures HasSuccessReply(r.replies) <==> target.Some?
    ensures HasErrorReply(r.replies) <==> target.Some? && !Succeeds(b)
    ensures HasErrorReply(r.replies) ==>
              |r.replies| == 2 && r.replies[1] == Reply(target.value, ErrorResponseFor(Caught(b), now), replyIds.1, now)
    ensures r.swallowed.Some? <==> target.Some? && !Succeeds(b) && b.errorReplyFailure.Some?
  {
    if target.None? then Consumed(Some(call), [], None, None)
    else AnswerTo(call, target.value, data, b, replyIds, now)
  }

  /** The `try` block once the message has a value. */
  function Attempt(topic: string, hh: Headers, target: Option<(string, string)>, b: Behaviour,
                   replyIds: (string, string), now: int): (r: Consumed)
    ensures r.escaped.None?
    ensures r.delivered.Some? <==> b.parsed.Ok?
    ensures r.delivered.Some? ==> r.delivered.value == HandlerCall(topic, b.parsed.value, hh)
    ensures target.None? ==> r.replies == [] && r.swallowed.None?
    ensures |r.replies| <= 2
    ensures target.Some? ==> RepliesTo(r.replies, target.value.0)
    ensures HasSuccessReply(r.replies) <==> b.parsed.Ok? && b.handled.Ok? && target.Some?
    ensures HasSuccessReply(r.replies) ==>
              r.replies[0] == Reply(target.value, SuccessResponse(b.handled.value, now), replyIds.0, now)
    ensures HasErrorReply(r.replies) <==> target.Some? && !Succeeds(b)
    ensures HasErrorReply(r.replies) ==>
              r.replies[|r.replies| - 1] == Reply(target.value, ErrorResponseFor(Caught(b), now), replyIds.1, now)
    ensures r.swallowed.Some? <==> target.Some? && !Succeeds(b) && b.errorReplyFailure.Some?
  {
    match b.parsed
    case Err(t) =>
      var r := Recover(None, [], target, t, b, replyIds.1, now);
      assert target.Some? ==> r.replies[0].records[0].value.ErrorResponse?;
      r
    case Ok(json) =>
      var call := HandlerCall(topic, json, hh);
      match b.handled
      case Err(t) =>
        var r := Recover(Some(call), [], target, t, b, replyIds.1, now);
        assert target.Some? ==> r.replies[0].records[0].value.ErrorResponse?;
        r
      case Ok(data) => Answer(call, target, data, b, replyIds, now)
  }

  /** `handleMessage(payload)` for a message on `topic`, with `replyIds` the
      message ids the publisher gives the success and the error reply. A `null`
      header value makes the handler's header record throw before the `try`
      block; a `null` message value ends the call with nothing sent. */
  function HandleMessage(topic: string, m: Message, b: Behaviour, replyIds: (string, string), now: int): (r: Consumed)
    ensures r.escaped.Some? <==> HasNullHeader(m.headers)
    ensures r.escaped.Some? ==> r.escaped == Some(NullHeaderError) && r.delivered.None? && r.replies == []
    ensures r.delivered.Some? <==> !HasNullHeader(m.headers) && m.value.Some? && b.parsed.Ok?
    ensures r.delivered.Some? ==> r.delivered.value == HandlerCall(topic, b.parsed.value, HandlerHeaders(m.headers).value)
    ensures ReplyTarget(m.headers).None? ==> r.replies == [] && r.swallowed.None?
    ensures |r.replies| <= 2
    ensures ReplyTarget(m.headers).Some? ==> RepliesTo(r.replies, ReplyTarget(m.headers).value.0)
    ensures HasSuccessReply(r.replies) <==> r.delivered.Some? && b.handled.Ok? && ReplyTarget(m.headers).Some?
    ensures HasSuccessReply(r.replies) ==>
              r.replies[0] == Reply(ReplyTarget(m.headers).value, SuccessResponse(b.handled.value, now), replyIds.0, now)
    ensures HasErrorReply(r.replies) <==>
              !HasNullHeader(m.headers) && m.value.Some? && ReplyTarget(m.headers).Some? && !Succeeds(b)
    ensures HasErrorReply(r.replies) ==>
              r.replies[|r.replies| - 1] == Reply(ReplyTarget(m.headers).value, ErrorResponseFor(Caught(b), now), replyIds.1, now)
    ensures r.swallowed.Some? <==>
              !HasNullHeader(m.headers) && m.value.Some? && ReplyTarget(m.headers).Some? && !Succeeds(b)
              && b.errorReplyFailure.Some?
  {
    match HandlerHeaders(m.headers)
    case Err(t) => Consumed(None, [], Some(t), None)
    case Ok(hh) =>
      if m.value.None? then Consumed(None, [], None, None)
      else Attempt(topic, hh, ReplyTarget(m.headers), b, replyIds, now)
  }
}

/** The correlation engine (src/core/patterns/request-reply.pattern.ts).

    The engine owns one table of pending requests keyed by correlation id.
    Every handler of the source runs to completion between awaits, so each
    event below is one atomic transition of an `Engine` value: `send`
    registers an entry, and a matching reply, the entry's timer, an expiry sweep
    or `stopListening` removes it and records its one outcome. Promises become
    the `outcomes` map; the id generator, the clock and timer firings are
    inputs. */
module RequestReply {
  import opened Wrappers
  import opened Headers
  import opened Numeric
  import opened Errors
  import opened Wire

  type Id = string

  const DefaultTimeout := 30000
  const DefaultMaxAge := 60000
  const FireAndForgetType := "fire-and-forget"

  /** A pending request: when it was registered and how long its timer runs. */
  datatype Pending = Pending(timestamp: int, timeout: int)

  datatype Rejection = ClientRejection(clientError: KafkaClientError) | RpcRejection(rpcError: RpcRequestError)

  /** How a request's promise settled. */
  datatype Outcome = Resolved(data: Json) | Rejected(reason: Rejection)

  datatype Engine = Engine(
    responseTopics: seq<string>,
    defaultTimeout: int,
    listening: bool,
    subscriptions: nat,            // number of subscribe-and-run calls made so far
    table: map<Id, Pending>,
    outcomes: map<Id, Outcome>)

  /** An inbound message on a response topic: its value (absent, or the
      decoded envelope) and its headers (absent, or present). */
  datatype Inbound = Inbound(value: Option<Envelope>, headers: Option<Headers>)

  datatype Sent = Sent(engine: Engine, publish: Publish<Id, Json>)

  datatype Swept = Swept(engine: Engine, cleaned: nat)

  function TimeoutError(timeout: int, id: Id): KafkaClientError {
    KafkaClientError("Request timeout after " + IntToString(timeout) + "ms for correlationId: " + id,
                     Some("REQUEST_TIMEOUT"), NoDetails)
  }

  const StoppedError := KafkaClientError("RequestReply stopped", Some("REQUEST_REPLY_STOPPED"), NoDetails)
  const ExpiredError := KafkaClientError("Request expired", Some("REQUEST_EXPIRED"), NoDetails)

  /** The constructor: the configured default timeout, or 30000 when it is
      absent or 0. */
  function NewEngine(responseTopics: seq<string>, configuredDefault: Option<int>): (e: Engine)
    ensures e.table == map[] && e.outcomes == map[] && !e.listening && e.subscriptions == 0
    ensures e.defaultTimeout != 0
    ensures configuredDefault.Some? && configuredDefault.value != 0 ==> e.defaultTimeout == configuredDefault.value
    ensures configuredDefault.None? || configuredDefault.value == 0 ==> e.defaultTimeout == DefaultTimeout
  {
    Engine(responseTopics, NumberOr(configuredDefault, DefaultTimeout), false, 0, map[], map[])
  }

  /** `getPendingRequestsCount()`. */
  function PendingCount(e: Engine): nat {
    |e.table|
  }

  /** `startListening()`: subscribes once; a second call while listening changes nothing. */
  function StartListening(e: Engine): (r: Engine)
    ensures r.listening
    ensures e.listening ==> r == e
    ensures !e.listening ==> r.subscriptions == e.subscriptions + 1
    ensures r.table == e.table && r.outcomes == e.outcomes
  {
    if e.listening then e else e.(listening := true, subscriptions := e.subscriptions + 1)
  }

  /** `stopListening()`: when listening, rejects every pending request with
      "RequestReply stopped" and empties the table; otherwise changes nothing. */
  function StopListening(e: Engine): (r: Engine)
    ensures !r.listening
    ensures !e.listening ==> r == e
    ensures e.listening ==> r.table == map[]
    ensures e.listening ==> forall id :: id in e.table ==>
              id in r.outcomes && r.outcomes[id] == Rejected(ClientRejection(StoppedError))
    ensures forall id :: id in e.outcomes && id !in e.table ==> id in r.outcomes && r.outcomes[id] == e.outcomes[id]
    ensures r.outcomes.Keys == if e.listening then e.outcomes.Keys + e.table.Keys else e.outcomes.Keys
  {
    if !e.listening then e
    else
      var stopped := map id | id in e.table :: Rejected(ClientRejection(StoppedError));
      e.(listening := false, table := map[], outcomes := e.outcomes + stopped)
  }

  /** `timeout || defaultTimeout`: an absent or zero timeout falls back to the
      engine's default. */
  function RequestTimeout(e: Engine, timeout: Option<int>): (t: int)
    ensures timeout.Some? && timeout.value != 0 ==> t == timeout.value
    ensures timeout.None? || timeout.value == 0 ==> t == e.defaultTimeout
  {
    NumberOr(timeout, e.defaultTimeout)
  }

  function RequestHeaders(id: Id, responseTopic: string, now: int, extra: Option<Headers>): Headers {
    var base := [("correlation-id", HStr(id)), ("reply-to", HStr(responseTopic)),
                 ("message-type", HStr("request-reply")), ("timestamp", HStr(IntToString(now)))];
    Spread(base, extra.GetOr([]))
  }

  /** The request headers: the four base headers, each overridden by the
      caller's extra header of the same name, plus the caller's other headers. */
  lemma RequestHeadersSpec(id: Id, responseTopic: string, now: int, extra: Option<Headers>, k: string)
    requires extra.Some? ==> DistinctKeys(extra.value)
    ensures DistinctKeys(RequestHeaders(id, responseTopic, now, extra))
    ensures Lookup(RequestHeaders(id, responseTopic, now, extra), k) ==
              if extra.Some? && k in KeySet(extra.value) then Lookup(extra.value, k)
              else if k == "correlation-id" then HStr(id)
              else if k == "reply-to" then HStr(responseTopic)
              else if k == "message-type" then HStr("request-reply")
              else if k == "timestamp" then HStr(IntToString(now))
              else HUndef
  {
    var base := [("correlation-id", HStr(id)), ("reply-to", HStr(responseTopic)),
                 ("message-type", HStr("request-reply")), ("timestamp", HStr(IntToString(now)))];
    LookupSpread(base, extra.GetOr([]), k);
    var i := if k == "correlation-id" then 0 else if k == "reply-to" then 1 else if k == "message-type" then 2
             else if k == "timestamp" then 3 else 4;
    if i < 4 {
      LookupOfDistinct(base, i);
    }
  }

  /** `send(commandTopic, responseTopic, message, timeout, additionalHeaders)`
      with `id` as the generated correlation id and `now` as the clock.

      The entry is registered before the publish, so it is in the table whatever
      the publish does; a failed publish rejects the caller's call and leaves
      the entry to its timer. */
  function Send(e: Engine, id: Id, now: int, timeout: Option<int>, commandTopic: string,
                responseTopic: string, message: Json, extra: Option<Headers>): (r: Sent)
    ensures id in r.engine.table && r.engine.table[id] == Pending(now, RequestTimeout(e, timeout))
    ensures forall x :: x != id ==> (x in r.engine.table <==> x in e.table)
    ensures forall x :: x != id && x in e.table ==> r.engine.table[x] == e.table[x]
    ensures id !in e.table ==> PendingCount(r.engine) == PendingCount(e) + 1
    ensures r.engine.outcomes == e.outcomes && r.engine.listening == e.listening
    ensures r.publish.topic == commandTopic && |r.publish.records| == 1
    ensures r.publish.records[0].key == id && r.publish.records[0].value == message
  {
    var pending := Pending(now, RequestTimeout(e, timeout));
    var table := e.table[id := pending];
    assert id !in e.table ==> table.Keys == e.table.Keys + {id};
    Sent(e.(table := table),
         Publish(commandTopic, [Record(id, message, RequestHeaders(id, responseTopic, now, extra))]))
  }

  /** Every header of the published request: the caller's extra header where
      one is given under that key (spread last, so it overrides), otherwise the
      base request header, and nothing else. */
  lemma SendRecordHeaders(e: Engine, id: Id, now: int, timeout: Option<int>, commandTopic: string,
                          responseTopic: string, message: Json, extra: Option<Headers>, k: string)
    requires extra.Some? ==> DistinctKeys(extra.value)
    ensures var h := Send(e, id, now, timeout, commandTopic, responseTopic, message, extra).publish.records[0].headers;
            && DistinctKeys(h)
            && Lookup(h, k) ==
                 if extra.Some? && k in KeySet(extra.value) then Lookup(extra.value, k)
                 else if k == "correlation-id" then HStr(id)
                 else if k == "reply-to" then HStr(responseTopic)
                 else if k == "message-type" then HStr("request-reply")
                 else if k == "timestamp" then HStr(IntToString(now))
                 else HUndef
  {
    RequestHeadersSpec(id, responseTopic, now, extra, k);
  }

  /** The timer of request `id` fires: the entry is removed and rejected with a
      timeout error naming its duration and id. A timer whose entry is already
      gone was cleared in the source, so firing it changes nothing here. */
  function TimerFires(e: Engine, id: Id): (r: Engine)
    ensures id !in e.table ==> r == e
    ensures id in e.table ==>
              r.table == e.table - {id}
              && r.outcomes == e.outcomes[id := Rejected(ClientRejection(TimeoutError(e.table[id].timeout, id)))]
    ensures r.listening == e.listening
  {
    if id !in e.table then e
    else e.(table := e.table - {id},
            outcomes := e.outcomes[id := Rejected(ClientRejection(TimeoutError(e.table[id].timeout, id)))])
  }

  /** How the `message-type` header is read: a buffer as utf-8, anything else as
      `String(value || "")`. */
  function MessageTypeText(v: HeaderValue): (s: string)
    ensures v.HBytes? ==> s == v.text
    ensures v.HStr? ==> s == v.s
    ensures !v.HBytes? && !Truthy(v) ==> s == ""
    ensures !v.HBytes? && Truthy(v) ==> s == ValueString(v)
  {
    if v.HBytes? then v.text else if !Truthy(v) then "" else ValueString(v)
  }

  /** How the correlation-id header is read: a buffer as utf-8, a string as is,
      a list by its first element (a buffer as utf-8, anything else through
      `String`), and anything else through `String`. */
  function DecodeCorrelationId(v: HeaderValue): (id: string)
    ensures v.HBytes? ==> id == v.text
    ensures v.HStr? ==> id == v.s
    ensures v.HList? && First(v.items).EBytes? ==> id == First(v.items).text
    ensures v.HList? && !First(v.items).EBytes? ==> id == ElemString(First(v.items))
    ensures !v.HBytes? && !v.HStr? && !v.HList? ==> id == ValueString(v)
  {
    match v
    case HBytes(t) => t
    case HStr(s) => s
    case HList(items) =>
      var f := First(items);
      if f.EBytes? then f.text else ElemString(f)
    case _ => ValueString(v)
  }

  /** The correlation id an inbound message answers, before the table is
      consulted; `None` for each of the source's early returns. */
  function ReplyCorrelationId(m: Inbound): (r: Option<Id>)
    ensures m.value.None? || m.headers.None? ==> r.None?
    ensures m.headers.Some? && MessageTypeText(Lookup(m.headers.value, "message-type")) == FireAndForgetType ==> r.None?
    ensures m.headers.Some? ==>
              (forall i :: 0 <= i < |m.headers.value| ==> Lower(m.headers.value[i].0) != "correlation-id") ==> r.None?
    ensures r.Some? ==> exists k :: FindKeyIgnoringCase(m.headers.value, "correlation-id") == Some(k)
                                   && Truthy(Lookup(m.headers.value, k))
                                   && r.value == DecodeCorrelationId(Lookup(m.headers.value, k))
  {
    if m.value.None? || m.headers.None? then None
    else
      var h := m.headers.value;
      if MessageTypeText(Lookup(h, "message-type")) == FireAndForgetType then None
      else match FindKeyIgnoringCase(h, "correlation-id")
        case None => None
        case Some(k) =>
          var v := Lookup(h, k);
          if !Truthy(v) then None else Some(DecodeCorrelationId(v))
  }

  /** A reply that passes the early returns answers the id its matched
      correlation-id header decodes to. */
  lemma ReplyCorrelationIdOfMatch(m: Inbound, k: string)
    requires m.value.Some? && m.headers.Some?
    requires MessageTypeText(Lookup(m.headers.value, "message-type")) != FireAndForgetType
    requires FindKeyIgnoringCase(m.headers.value, "correlation-id") == Some(k)
    requires Truthy(Lookup(m.headers.value, k))
    ensures ReplyCorrelationId(m) == Some(DecodeCorrelationId(Lookup(m.headers.value, k)))
  {
  }

  /** What a matched reply does to its request. */
  function Settle(env: Envelope): (o: Outcome)
    ensures env.Decoded? && env.success ==> o == Resolved(env.data)
    ensures env.Decoded? && !env.success ==>
              o == Rejected(RpcRejection(RpcRequestError(
                     if env.message != "" then env.message else if env.error != "" then env.error else "Unknown error",
                     if env.statusCode != 0 then env.statusCode else 500,
                     if env.error != "" then env.error else "InternalServerError")))
    ensures env.Unparsable? ==> o == Rejected(ClientRejection(FromError(env.cause, "Failed to parse response")))
  {
    match env
    case Unparsable(cause) => Rejected(ClientRejection(FromError(cause, "Failed to parse response")))
    case Decoded(success, data, statusCode, error, message) =>
      if success then Resolved(data)
      else Rejected(RpcRejection(RpcRequestError(
        TextOr(message, TextOr(error, "Unknown error")),
        NumberOr(Some(statusCode), 500),
        TextOr(error, "InternalServerError"))))
  }

  /** `handleResponse(message)`: a reply whose correlation id names a pending
      request removes exactly that entry and settles it; every other inbound
      message leaves the engine as it was. */
  function HandleResponse(e: Engine, m: Inbound): (r: Engine)
    ensures ReplyCorrelationId(m).None? ==> r == e
    ensures ReplyCorrelationId(m).Some? && ReplyCorrelationId(m).value !in e.table ==> r == e
    ensures ReplyCorrelationId(m).Some? && ReplyCorrelationId(m).value in e.table ==>
              var id := ReplyCorrelationId(m).value;
              r.table == e.table - {id} && r.outcomes == e.outcomes[id := Settle(m.value.value)]
    ensures r.listening == e.listening && r.defaultTimeout == e.defaultTimeout
  {
    match ReplyCorrelationId(m)
    case None => e
    case Some(id) =>
      if id !in e.table then e
      else e.(table := e.table - {id}, outcomes := e.outcomes[id := Settle(m.value.value)])
  }

  /** `maxAge = 60000`: the default applies only when no argument is given. */
  function MaxAge(maxAge: Option<int>): (a: int)
    ensures maxAge.Some? ==> a == maxAge.value
    ensures maxAge.None? ==> a == DefaultMaxAge
  {
    NumberOrIfAbsent(maxAge, DefaultMaxAge)
  }

  function Expired(e: Engine, now: int, maxAge: int): set<Id> {
    set id | id in e.table && now - e.table[id].timestamp > maxAge
  }

  /** `cleanupOldRequests(maxAge)` at time `now`: removes exactly the entries
      older than `maxAge` (strictly), rejects them with "Request expired" and
      returns how many it removed. */
  function CleanupOldRequests(e: Engine, now: int, maxAge: int): (r: Swept)
    ensures forall id :: id in r.engine.table <==> id in e.table && now - e.table[id].timestamp <= maxAge
    ensures forall id :: id in r.engine.table ==> r.engine.table[id] == e.table[id]
    ensures forall id :: id in e.table && now - e.table[id].timestamp > maxAge ==>
              id in r.engine.outcomes && r.engine.outcomes[id] == Rejected(ClientRejection(ExpiredError))
    ensures forall id :: id in e.outcomes && id !in e.table ==> id in r.engine.outcomes && r.engine.outcomes[id] == e.outcomes[id]
    ensures r.engine.outcomes.Keys <= e.outcomes.Keys + e.table.Keys
    ensures r.cleaned == PendingCount(e) - PendingCount(r.engine)
    ensures r.engine.listening == e.listening
  {
    var expired := Expired(e, now, maxAge);
    var rejected := map id | id in expired :: Rejected(ClientRejection(ExpiredError));
    RemovedCount(e.table, expired);
    Swept(e.(table := e.table - expired, outcomes := e.outcomes + rejected), |expired|)
  }

  lemma RemovedCount<K, V>(m: map<K, V>, s: set<K>)
    requires s <= m.Keys
    ensures |m - s| == |m| - |s|
  {
    var rest := m - s;
    assert rest.Keys == m.Keys - s;
    assert m.Keys == rest.Keys + s;
    assert rest.Keys !! s;
    assert |m.Keys| == |rest.Keys| + |s|;
  }

  /** A sweep of an empty table removes nothing and returns 0. */
  lemma CleanupOfEmptyTable(e: Engine, now: int, maxAge: int)
    requires e.table == map[]
    ensures CleanupOldRequests(e, now, maxAge).cleaned == 0
    ensures CleanupOldRequests(e, now, maxAge).engine == e
  {
    assert Expired(e, now, maxAge) == {};
  }

  // ----- The pending table as a whole: each id is settled exactly once -----

  datatype Event =
    | SendEvent(id: Id, now: int, timeout: Option<int>, commandTopic: string, responseTopic: string,
                message: Json, extra: Option<Headers>)
    | ReplyEvent(inbound: Inbound)
    | TimerEvent(timerId: Id)
    | SweepEvent(sweepNow: int, maxAge: Option<int>)
    | StartEvent
    | StopEvent

  function Step(e: Engine, ev: Event): Engine {
    match ev
    case SendEvent(id, now, t, c, rt, msg, extra) => Send(e, id, now, t, c, rt, msg, extra).engine
    case ReplyEvent(m) => HandleResponse(e, m)
    case TimerEvent(id) => TimerFires(e, id)
    case SweepEvent(now, maxAge) => CleanupOldRequests(e, now, MaxAge(maxAge)).engine
    case StartEvent => StartListening(e)
    case StopEvent => StopListening(e)
  }

  /** The id generator never repeats an id, pending or settled. */
  predicate Fresh(e: Engine, id: Id) {
    id !in e.table && id !in e.outcomes
  }

  predicate Allowed(e: Engine, ev: Event) {
    ev.SendEvent? ==> Fresh(e, ev.id)
  }

  /** No id is both pending and settled. */
  predicate Separate(e: Engine) {
    e.table.Keys !! e.outcomes.Keys
  }

  /** From `e` to `e'` no outcome was lost or changed, and no pending request
      disappeared without an outcome. */
  predicate SettledOnce(e: Engine, e': Engine) {
    && (forall id :: id in e.outcomes ==> id in e'.outcomes && e'.outcomes[id] == e.outcomes[id])
    && (forall id :: id in e.table ==> id in e'.table || id in e'.outcomes)
  }

  /** What one event must do: keep pending and settled ids apart, never
      overwrite an outcome, give every id it removes from the table an
      outcome, and give new outcomes only to ids that were pending. */
  predicate KeepsSettlement(e: Engine, e': Engine) {
    && Separate(e') && SettledOnce(e, e')
    && (forall id :: id in e'.outcomes && id !in e.outcomes ==> id in e.table)
  }

  lemma SendKeepsSettlement(e: Engine, id: Id, now: int, t: Option<int>, c: string, rt: string, msg: Json,
                            extra: Option<Headers>)
    requires Separate(e) && Fresh(e, id)
    ensures KeepsSettlement(e, Send(e, id, now, t, c, rt, msg, extra).engine)
  {
  }

  lemma ReplyKeepsSettlement(e: Engine, m: Inbound)
    requires Separate(e)
    ensures KeepsSettlement(e, HandleResponse(e, m))
  {
  }

  lemma TimerKeepsSettlement(e: Engine, id: Id)
    requires Separate(e)
    ensures KeepsSettlement(e, TimerFires(e, id))
  {
  }

  lemma SweepKeepsSettlement(e: Engine, now: int, maxAge: int)
    requires Separate(e)
    ensures KeepsSettlement(e, CleanupOldRequests(e, now, maxAge).engine)
  {
  }

  lemma StopKeepsSettlement(e: Engine)
    requires Separate(e)
    ensures KeepsSettlement(e, StopListening(e))
  {
  }

  /** One event keeps pending and settled ids apart, never overwrites an
      outcome, and gives every id it removes from the table an outcome; new
      outcomes only go to ids that were pending. */
  lemma StepSettlesOnce(e: Engine, ev: Event)
    requires Separate(e) && Allowed(e, ev)
    ensures Separate(Step(e, ev)) && SettledOnce(e, Step(e, ev))
    ensures forall id :: id in Step(e, ev).outcomes && id !in e.outcomes ==> id in e.table
  {
    match ev
    case SendEvent(id, now, t, c, rt, msg, extra) => SendKeepsSettlement(e, id, now, t, c, rt, msg, extra);
    case ReplyEvent(m) => ReplyKeepsSettlement(e, m);
    case TimerEvent(id) => TimerKeepsSettlement(e, id);
    case SweepEvent(now, maxAge) => SweepKeepsSettlement(e, now, MaxAge(maxAge));
    case StartEvent =>
    case StopEvent => StopKeepsSettlement(e);
  }

  function Run(e: Engine, evs: seq<Event>): Engine
    decreases |evs|
  {
    if |evs| == 0 then e else Run(Step(e, evs[0]), evs[1..])
  }

  /** Every send in the trace uses an id never seen before it. */
  predicate AllAllowed(e: Engine, evs: seq<Event>)
    decreases |evs|
  {
    |evs| == 0 || (Allowed(e, evs[0]) && AllAllowed(Step(e, evs[0]), evs[1..]))
  }

  /** Over any trace of events: once settled, an id keeps its one outcome and
      never becomes pending again, and every id that was pending is still
      pending or has been settled. */
  lemma {:induction false} RunSettlesOnce(e: Engine, evs: seq<Event>)
    requires Separate(e) && AllAllowed(e, evs)
    ensures Separate(Run(e, evs)) && SettledOnce(e, Run(e, evs))
    decreases |evs|
  {
    if |evs| > 0 {
      var e1 := Step(e, evs[0]);
      StepSettlesOnce(e, evs[0]);
      RunSettlesOnce(e1, evs[1..]);
    }
  }

  /** `getPendingRequestsCount()` across events: a send of a fresh id adds one;
      a matched reply and a firing timer remove one; a sweep removes the number
      it reports; a stop while listening leaves none; anything else keeps it. */
  lemma PendingCountStep(e: Engine, ev: Event)
    requires Allowed(e, ev)
    ensures ev.SendEvent? ==> PendingCount(Step(e, ev)) == PendingCount(e) + 1
    ensures ev.ReplyEvent? ==>
              PendingCount(Step(e, ev)) ==
                if ReplyCorrelationId(ev.inbound).Some? && ReplyCorrelationId(ev.inbound).value in e.table
                then PendingCount(e) - 1 else PendingCount(e)
    ensures ev.TimerEvent? ==>
              PendingCount(Step(e, ev)) == if ev.timerId in e.table then PendingCount(e) - 1 else PendingCount(e)
    ensures ev.SweepEvent? ==>
              PendingCount(Step(e, ev)) == PendingCount(e) - CleanupOldRequests(e, ev.sweepNow, MaxAge(ev.maxAge)).cleaned
    ensures ev.StartEvent? ==> PendingCount(Step(e, ev)) == PendingCount(e)
    ensures ev.StopEvent? ==> PendingCount(Step(e, ev)) == if e.listening then 0 else PendingCount(e)
  {
    match ev
    case ReplyEvent(m) =>
      var id := ReplyCorrelationId(m);
      if id.Some? && id.value in e.table {
        RemovedCount(e.table, {id.value});
      }
    case TimerEvent(id) =>
      if id in e.table {
        RemovedCount(e.table, {id});
      }
    case _ =>
  }
}

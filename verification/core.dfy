/** The low-level client (src/core/kafka.core.ts): one producer, one consumer
    for request-reply, an optional consumer for the dead-letter topics, and the
    patterns built on them.

    The transports are reduced to the calls made on them, kept in order in
    `log`. Building the kafkajs objects is reduced to the group ids they are
    given and the configuration passed to the transport library. */
module Core {
  import opened Wrappers
  import opened Headers
  import opened Errors
  import Retry
  import DeadLetter
  import RequestReply

  const AlreadyInitialized :=
    KafkaClientError("RequestReply pattern already initialized", Some("REQUEST_REPLY_ALREADY_INITIALIZED"), NoDetails)

  /** The transport library's retry settings. */
  datatype TransportRetry = TransportRetry(retries: int, initialRetryTime: int, maxRetryTime: int)

  /** The transport configuration the core is built with. */
  datatype KafkaConfig = KafkaConfig(
    clientId: string,
    brokers: seq<string>,
    connectionTimeout: int,
    requestTimeout: int,
    retry: TransportRetry,
    enforceRequestTimeout: bool,
    logLevel: int)

  datatype RequestReplyOptions = RequestReplyOptions(defaultTimeout: Option<int>, groupId: Option<string>)

  /** The dead-letter options; the callback is not modelled. */
  datatype DlqOptions = DlqOptions(groupId: Option<string>)

  datatype CoreOptions = CoreOptions(
    kafka: KafkaConfig,
    requestReply: Option<RequestReplyOptions>,
    retry: Retry.RetryOptions,
    dlq: Option<DlqOptions>)

  datatype Transport = Producer | MainConsumer | DlqConsumer

  /** A call the core makes on a transport or a pattern. */
  datatype Call =
    | ConnectCall(connected: Transport)
    | DisconnectCall(disconnected: Transport)
    | StopRequestReplyCall
    | StopDlqHandlerCall

  datatype Core = Core(
    kafka: KafkaConfig,
    consumerGroupId: string,          // the request-reply consumer's group
    dlqGroupId: Option<string>,       // the dead-letter consumer's group, when there is one
    retry: Retry.Config,
    dlqHandler: Option<DeadLetter.Handler>,
    requestReply: Option<RequestReply.Engine>,
    connected: bool,
    log: seq<Call>)

  /** The outcome of `connect()`: the core afterwards and the error it threw. */
  datatype Connected = Connected(core: Core, error: Option<Thrown>)

  /** The constructor. The request-reply consumer's group is the configured
      `requestReply.groupId` or "<clientId>-consumer"; a dead-letter consumer
      and handler exist exactly when `dlq` options are given, the consumer's
      group being `dlq.groupId` or "<clientId>-dlq-consumer". */
  function NewCore(o: CoreOptions): (c: Core)
    ensures c.kafka == o.kafka && !c.connected && c.log == [] && c.requestReply.None?
    ensures c.retry == Retry.NewConfig(o.retry)
    ensures c.consumerGroupId ==
              if o.requestReply.Some? && o.requestReply.value.groupId.Some? && o.requestReply.value.groupId.value != ""
              then o.requestReply.value.groupId.value
              else o.kafka.clientId + "-consumer"
    ensures c.dlqGroupId.Some? <==> o.dlq.Some?
    ensures c.dlqHandler.Some? <==> o.dlq.Some?
    ensures c.dlqHandler.Some? ==> c.dlqHandler.value == DeadLetter.NewHandler()
    ensures o.dlq.Some? ==>
              c.dlqGroupId.value == if o.dlq.value.groupId.Some? && o.dlq.value.groupId.value != ""
                                    then o.dlq.value.groupId.value
                                    else o.kafka.clientId + "-dlq-consumer"
  {
    var rrGroup := if o.requestReply.Some? then o.requestReply.value.groupId.GetOr("") else "";
    var dlqGroup := if o.dlq.Some? then Some(TextOr(o.dlq.value.groupId.GetOr(""), o.kafka.clientId + "-dlq-consumer")) else None;
    Core(o.kafka, TextOr(rrGroup, o.kafka.clientId + "-consumer"), dlqGroup, Retry.NewConfig(o.retry),
         if dlqGroup.Some? then Some(DeadLetter.NewHandler()) else None, None, false, [])
  }

  /** `options?.defaultTimeout`: the only field of the options the engine reads. */
  function ConfiguredTimeout(options: Option<RequestReplyOptions>): Option<int> {
    if options.Some? then options.value.defaultTimeout else None
  }

  /** `initRequestReply(responseTopics, options)`: creates the engine once;
      a second call fails and keeps the first engine. */
  function InitRequestReply(c: Core, responseTopics: seq<string>, options: Option<RequestReplyOptions>)
    : (r: Result<Core, KafkaClientError>)
    ensures c.requestReply.Some? <==> r.Err?
    ensures r.Err? ==> r.error == AlreadyInitialized
    ensures r.Ok? ==> r.value == c.(requestReply := r.value.requestReply)
    ensures r.Ok? ==>
              r.value.requestReply == Some(RequestReply.NewEngine(responseTopics, ConfiguredTimeout(options)))
  {
    if c.requestReply.Some? then Err(AlreadyInitialized)
    else Ok(c.(requestReply := Some(RequestReply.NewEngine(responseTopics, ConfiguredTimeout(options)))))
  }

  /** The connect calls in order: producer, request-reply consumer, then the
      dead-letter consumer when there is one. */
  function ConnectSteps(c: Core): (s: seq<Call>)
    ensures |s| == if c.dlqGroupId.Some? then 3 else 2
    ensures s[0] == ConnectCall(Producer) && s[1] == ConnectCall(MainConsumer)
    ensures c.dlqGroupId.Some? ==> s[2] == ConnectCall(DlqConsumer)
  {
    [ConnectCall(Producer), ConnectCall(MainConsumer)] + if c.dlqGroupId.Some? then [ConnectCall(DlqConsumer)] else []
  }

  /** `connect()`, where `failure`, when present, names the step whose call
      throws and what it throws. Connecting a connected core changes nothing;
      a failed connect leaves the core disconnected after the calls made up to
      the failing one, and the error reaches the caller. */
  function Connect(c: Core, failure: Option<(nat, Thrown)>): (r: Connected)
    ensures c.connected ==> r == Connected(c, None)
    ensures r.core.requestReply == c.requestReply && r.core.dlqHandler == c.dlqHandler
    ensures r.core.connected <==> c.connected || r.error.None?
    ensures !c.connected ==> (r.error.Some? <==> failure.Some? && failure.value.0 < |ConnectSteps(c)|)
    ensures !c.connected && r.error.None? ==> r.core.log == c.log + ConnectSteps(c)
    ensures !c.connected && r.error.Some? ==>
              r.error == Some(failure.value.1) && r.core.log == c.log + ConnectSteps(c)[..failure.value.0 + 1]
  {
    if c.connected then Connected(c, None)
    else
      var steps := ConnectSteps(c);
      if failure.Some? && failure.value.0 < |steps| then
        Connected(c.(log := c.log + steps[..failure.value.0 + 1]), Some(failure.value.1))
      else Connected(c.(connected := true, log := c.log + steps), None)
  }

  /** The disconnect calls in order: stop the request-reply engine and the
      dead-letter handler where they exist, then disconnect the producer, the
      request-reply consumer and the dead-letter consumer. */
  function DisconnectSteps(c: Core): seq<Call> {
    (if c.requestReply.Some? then [StopRequestReplyCall] else [])
    + (if c.dlqHandler.Some? then [StopDlqHandlerCall] else [])
    + [DisconnectCall(Producer), DisconnectCall(MainConsumer)]
    + (if c.dlqGroupId.Some? then [DisconnectCall(DlqConsumer)] else [])
  }

  /** `disconnect()`: nothing when not connected; otherwise stops the
      patterns, disconnects the transports and marks the core disconnected. */
  function Disconnect(c: Core): (r: Core)
    ensures !r.connected
    ensures !c.connected ==> r == c
    ensures c.connected ==> r.log == c.log + DisconnectSteps(c)
    ensures c.connected ==> r.requestReply.Some? == c.requestReply.Some? && r.dlqHandler.Some? == c.dlqHandler.Some?
    ensures c.connected && c.requestReply.Some? ==> r.requestReply == Some(RequestReply.StopListening(c.requestReply.value))
    ensures c.connected && c.dlqHandler.Some? ==> r.dlqHandler == Some(DeadLetter.Stop(c.dlqHandler.value))
    ensures r.kafka == c.kafka && r.consumerGroupId == c.consumerGroupId && r.dlqGroupId == c.dlqGroupId
  {
    if !c.connected then c
    else
      c.(requestReply := if c.requestReply.Some? then Some(RequestReply.StopListening(c.requestReply.value)) else None,
         dlqHandler := if c.dlqHandler.Some? then Some(DeadLetter.Stop(c.dlqHandler.value)) else None,
         connected := false,
         log := c.log + DisconnectSteps(c))
  }

  /** `getConnectionStatus()`. */
  function GetConnectionStatus(c: Core): (b: bool)
    ensures b <==> c.connected
  {
    c.connected
  }

  /** Connecting twice connects once; a successful connect reports connected
      and a disconnect then reports disconnected. */
  lemma ConnectDisconnectStatus(c: Core, f: Option<(nat, Thrown)>, f': Option<(nat, Thrown)>)
    requires !c.connected
    requires Connect(c, f).error.None?
    ensures GetConnectionStatus(Connect(c, f).core)
    ensures Connect(Connect(c, f).core, f') == Connected(Connect(c, f).core, None)
    ensures !GetConnectionStatus(Disconnect(Connect(c, f).core))
    ensures Disconnect(Disconnect(Connect(c, f).core)) == Disconnect(Connect(c, f).core)
  {
  }

  /** A second `initRequestReply` fails whatever its arguments, and the first
      engine stays in place. */
  lemma InitRequestReplyOnce(c: Core, t: seq<string>, o: Option<RequestReplyOptions>, t': seq<string>,
                             o': Option<RequestReplyOptions>)
    requires c.requestReply.None?
    ensures InitRequestReply(c, t, o).Ok?
    ensures InitRequestReply(InitRequestReply(c, t, o).value, t', o') == Err(AlreadyInitialized)
    ensures InitRequestReply(c, t, o).value.requestReply.value.responseTopics == t
  {
  }

  /** Disconnecting a connected core whose engine is listening settles every
      pending request with "RequestReply stopped" before any transport is
      disconnected. */
  lemma {:induction false} DisconnectSettlesPending(c: Core)
    requires c.connected && c.requestReply.Some? && c.requestReply.value.listening
    ensures var r := Disconnect(c);
            && r.requestReply.value.table == map[]
            && (forall id :: id in c.requestReply.value.table ==>
                  id in r.requestReply.value.outcomes
                  && r.requestReply.value.outcomes[id] == RequestReply.Rejected(RequestReply.ClientRejection(RequestReply.StoppedError)))
            && r.log[|c.log|] == StopRequestReplyCall
            && (forall i :: |c.log| < i < |r.log| ==> r.log[i] != StopRequestReplyCall)
  {
    var r := Disconnect(c);
    var steps := DisconnectSteps(c);
    assert r.log == c.log + steps;
    assert steps[0] == StopRequestReplyCall;
    forall i | |c.log| < i < |r.log| ensures r.log[i] != StopRequestReplyCall {
      assert r.log[i] == steps[i - |c.log|];
    }
  }

  /** A running dead-letter handler's consumer is disconnected twice on
      `disconnect()`: once by the handler's `stop()` and once by the core. */
  lemma DlqConsumerDisconnectedTwice(c: Core)
    requires c.connected && c.dlqHandler.Some? && c.dlqHandler.value.running && c.dlqGroupId.Some?
    ensures var r := Disconnect(c);
            && r.dlqHandler.value.disconnects == c.dlqHandler.value.disconnects + 1
            && r.log[|r.log| - 1] == DisconnectCall(DlqConsumer)
  {
  }
}

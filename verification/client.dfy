/** The client service (src/main/client/kafka-client.service.ts): validates
    the module options, derives the core's configuration from them, connects,
    and sets up request-reply when response topics are configured.

    `OnModuleInit` models the code as written, which never hands the configured
    `defaultTimeout` to the request-reply engine; `OnModuleInitForwarding` is
    the corrected variant that does. */
module ClientService {
  import opened Wrappers
  import opened Headers
  import opened Numeric
  import opened Errors
  import Core
  import RequestReply
  import Retry

  const InvalidOptions :=
    KafkaClientError("brokers and clientId must be provided in KafkaClientModuleOptions", Some("INVALID_MODULE_OPTIONS"), NoDetails)
  const NotInitialized := KafkaClientError("Kafka client not initialized", Some("CLIENT_NOT_INITIALIZED"), NoDetails)
  const InitFailureMessage := "Failed to initialize Kafka Client"
  const GuardMessage := "Failed to initialize Request-Reply pattern"

  const DefaultConnectionTimeout := 10000
  const DefaultRequestTimeout := 30000
  const DefaultTransportRetry := Core.TransportRetry(8, 300, 30000)

  datatype ClientOptions = ClientOptions(
    brokers: Option<seq<string>>,
    clientId: string,
    connectionTimeout: Option<int>,
    requestTimeout: Option<int>,
    retry: Option<Core.TransportRetry>,
    defaultTimeout: Option<int>,
    responseTopics: Option<seq<string>>)

  /** The service's state: its options and the core, once one was built. */
  datatype Client = Client(options: ClientOptions, kafkaClient: Option<Core.Core>)

  datatype InitResult = InitResult(client: Client, error: Option<KafkaClientError>)

  /** What can fail after validation: the core's `connect()` (the step and the
      thrown value) and the request-reply engine's subscription. */
  datatype Failures = Failures(connect: Option<(nat, Thrown)>, subscribe: Option<Thrown>)

  /** A service before `onModuleInit()`: `getClient()` throws "not
      initialized", `isConnected()` is false, and `onModuleDestroy()` does
      nothing. */
  function NewClient(options: ClientOptions): (c: Client)
    ensures c.options == options && c.kafkaClient.None?
    ensures GetClient(c) == Err(NotInitialized)
    ensures !IsConnected(c)
    ensures OnModuleDestroy(c) == c
  {
    Client(options, None)
  }

  predicate ValidOptions(o: ClientOptions) {
    o.brokers.Some? && |o.brokers.value| > 0 && o.clientId != ""
  }

  /** Whether request-reply is to be set up: `responseTopics` given and non-empty. */
  predicate WantsRequestReply(o: ClientOptions) {
    o.responseTopics.Some? && |o.responseTopics.value| > 0
  }

  /** The request-reply options handed to the core: `defaultTimeout || 30000`
      and the group "<clientId>-request-reply". */
  function DerivedRequestReply(o: ClientOptions): (r: Core.RequestReplyOptions)
    ensures r.defaultTimeout.Some? && r.defaultTimeout.value != 0
    ensures o.defaultTimeout.Some? && o.defaultTimeout.value != 0 ==> r.defaultTimeout == o.defaultTimeout
    ensures r.groupId == Some(o.clientId + "-request-reply")
  {
    Core.RequestReplyOptions(Some(NumberOr(o.defaultTimeout, RequestReply.DefaultTimeout)), Some(o.clientId + "-request-reply"))
  }

  /** The core's options: timeouts and transport retries default with `??`
      (only an absent value is replaced), no dead-letter handler. */
  function DerivedCoreOptions(o: ClientOptions): (r: Core.CoreOptions)
    requires ValidOptions(o)
    ensures r.kafka.clientId == o.clientId && r.kafka.brokers == o.brokers.value
    ensures r.kafka.connectionTimeout == o.connectionTimeout.GetOr(DefaultConnectionTimeout)
    ensures r.kafka.requestTimeout == o.requestTimeout.GetOr(DefaultRequestTimeout)
    ensures r.kafka.retry == o.retry.GetOr(DefaultTransportRetry)
    ensures !r.kafka.enforceRequestTimeout && r.kafka.logLevel == 2
    ensures r.requestReply == Some(DerivedRequestReply(o)) && r.dlq.None?
  {
    Core.CoreOptions(
      Core.KafkaConfig(o.clientId, o.brokers.value,
                       NumberOrIfAbsent(o.connectionTimeout, DefaultConnectionTimeout),
                       NumberOrIfAbsent(o.requestTimeout, DefaultRequestTimeout),
                       o.retry.GetOr(DefaultTransportRetry), false, 2),
      Some(DerivedRequestReply(o)),
      Retry.RetryOptions(None, None, None),
      None)
  }

  /** The `try` block of `onModuleInit`, with `rrOptions` the options passed to
      `initRequestReply`. The core is kept even when connecting fails. */
  function InitWith(c: Client, rrOptions: Option<Core.RequestReplyOptions>, f: Failures): (r: InitResult)
    requires ValidOptions(c.options)
    ensures r.client.options == c.options && r.client.kafkaClient.Some?
    ensures r.client.kafkaClient.value.consumerGroupId == c.options.clientId + "-request-reply"
    ensures r.client.kafkaClient.value.requestReply.Some? <==>
              WantsRequestReply(c.options) && Core.Connect(Core.NewCore(DerivedCoreOptions(c.options)), f.connect).error.None?
    ensures r.client.kafkaClient.value.requestReply.Some? ==>
              r.client.kafkaClient.value.requestReply.value.defaultTimeout ==
                NumberOr(Core.ConfiguredTimeout(rrOptions), RequestReply.DefaultTimeout)
              && r.client.kafkaClient.value.requestReply.value.responseTopics == c.options.responseTopics.value
              && (r.client.kafkaClient.value.requestReply.value.listening <==> f.subscribe.None?)
    ensures r.error.None? <==>
              Core.Connect(Core.NewCore(DerivedCoreOptions(c.options)), f.connect).error.None?
              && (WantsRequestReply(c.options) ==> f.subscribe.None?)
    ensures var conn := Core.Connect(Core.NewCore(DerivedCoreOptions(c.options)), f.connect);
            conn.error.Some? ==> r.error == Some(FromError(conn.error.value, InitFailureMessage))
    ensures Core.Connect(Core.NewCore(DerivedCoreOptions(c.options)), f.connect).error.None?
            && WantsRequestReply(c.options) && f.subscribe.Some? ==>
              r.error == Some(FromError(f.subscribe.value, InitFailureMessage))
  {
    var core := Core.NewCore(DerivedCoreOptions(c.options));
    var conn := Core.Connect(core, f.connect);
    if conn.error.Some? then
      InitResult(c.(kafkaClient := Some(conn.core)), Some(FromError(conn.error.value, InitFailureMessage)))
    else if !WantsRequestReply(c.options) then
      InitResult(c.(kafkaClient := Some(conn.core)), None)
    else
      match Core.InitRequestReply(conn.core, c.options.responseTopics.value, rrOptions)
      case Err(e) =>
        InitResult(c.(kafkaClient := Some(conn.core)), Some(FromError(ClientError(e), InitFailureMessage)))
      case Ok(inited) =>
        if inited.requestReply.None? then
          InitResult(c.(kafkaClient := Some(inited)),
                     Some(FromError(ClientError(KafkaClientError(GuardMessage, Some("REQUEST_REPLY_INIT_FAILED"), NoDetails)),
                                    InitFailureMessage)))
        else if f.subscribe.Some? then
          InitResult(c.(kafkaClient := Some(inited)), Some(FromError(f.subscribe.value, InitFailureMessage)))
        else
          InitResult(c.(kafkaClient := Some(inited.(requestReply := Some(RequestReply.StartListening(inited.requestReply.value))))),
                     None)
  }

  /** `onModuleInit()` as written: invalid options are refused before anything
      is built; otherwise `initRequestReply` is called with the response topics
      alone, and every failure is rethrown through `fromError`. */
  function OnModuleInit(c: Client, f: Failures): (r: InitResult)
    ensures !ValidOptions(c.options) ==> r == InitResult(c, Some(InvalidOptions))
    ensures ValidOptions(c.options) ==> r.client.kafkaClient.Some?
    ensures ValidOptions(c.options) && r.client.kafkaClient.value.requestReply.Some? ==>
              r.client.kafkaClient.value.requestReply.value.defaultTimeout == RequestReply.DefaultTimeout
    ensures ValidOptions(c.options) && f.connect.None? && f.subscribe.None? ==> r.error.None? && IsConnected(r.client)
    ensures ValidOptions(c.options) ==>
              var conn := Core.Connect(Core.NewCore(DerivedCoreOptions(c.options)), f.connect);
              && (conn.error.Some? ==> r.error == Some(FromError(conn.error.value, InitFailureMessage)))
              && (conn.error.None? && WantsRequestReply(c.options) && f.subscribe.Some? ==>
                    r.error == Some(FromError(f.subscribe.value, InitFailureMessage)))
  {
    if !ValidOptions(c.options) then InitResult(c, Some(InvalidOptions)) else InitWith(c, None, f)
  }

  /** `onModuleInit()` with the derived request-reply options forwarded to
      `initRequestReply`, so that the engine uses the configured timeout. */
  function OnModuleInitForwarding(c: Client, f: Failures): (r: InitResult)
    ensures !ValidOptions(c.options) ==> r == InitResult(c, Some(InvalidOptions))
    ensures ValidOptions(c.options) ==> r.client.kafkaClient.Some?
    ensures ValidOptions(c.options) && r.client.kafkaClient.value.requestReply.Some? ==>
              Some(r.client.kafkaClient.value.requestReply.value.defaultTimeout) == DerivedRequestReply(c.options).defaultTimeout
    ensures ValidOptions(c.options) && f.connect.None? && f.subscribe.None? ==> r.error.None? && IsConnected(r.client)
  {
    if !ValidOptions(c.options) then InitResult(c, Some(InvalidOptions))
    else InitWith(c, Some(DerivedRequestReply(c.options)), f)
  }

  /** `onModuleDestroy()`: disconnects the core when there is one. */
  function OnModuleDestroy(c: Client): (r: Client)
    ensures r.options == c.options && r.kafkaClient.Some? == c.kafkaClient.Some?
    ensures c.kafkaClient.Some? ==> r.kafkaClient.value == Core.Disconnect(c.kafkaClient.value)
  {
    if c.kafkaClient.Some? then c.(kafkaClient := Some(Core.Disconnect(c.kafkaClient.value))) else c
  }

  /** `getClient()`. */
  function GetClient(c: Client): (r: Result<Core.Core, KafkaClientError>)
    ensures r.Ok? <==> c.kafkaClient.Some?
    ensures r.Ok? ==> r.value == c.kafkaClient.value
    ensures r.Err? ==> r.error == NotInitialized
  {
    if c.kafkaClient.Some? then Ok(c.kafkaClient.value) else Err(NotInitialized)
  }

  /** `isConnected()`: false without a core. */
  function IsConnected(c: Client): (b: bool)
    ensures b <==> c.kafkaClient.Some? && c.kafkaClient.value.connected
  {
    c.kafkaClient.Some? && Core.GetConnectionStatus(c.kafkaClient.value)
  }

  /** The "Failed to initialize Request-Reply pattern" guard never fires: on a
      freshly built and connected core `initRequestReply` always succeeds and
      always leaves an engine in place. */
  lemma RequestReplyGuardUnreachable(o: ClientOptions, connect: Option<(nat, Thrown)>, rr: Option<Core.RequestReplyOptions>)
    requires ValidOptions(o) && WantsRequestReply(o)
    requires Core.Connect(Core.NewCore(DerivedCoreOptions(o)), connect).error.None?
    ensures var core := Core.Connect(Core.NewCore(DerivedCoreOptions(o)), connect).core;
            && Core.InitRequestReply(core, o.responseTopics.value, rr).Ok?
            && Core.InitRequestReply(core, o.responseTopics.value, rr).value.requestReply.Some?
  {
  }

  /** As written, the engine's default timeout is 30000 whatever `defaultTimeout`
      the module was configured with; with 5000 configured, 5000 is not used. */
  lemma ConfiguredTimeoutIgnored(c: Client, f: Failures)
    requires ValidOptions(c.options) && WantsRequestReply(c.options)
    requires OnModuleInit(c, f).error.None?
    ensures OnModuleInit(c, f).client.kafkaClient.value.requestReply.value.defaultTimeout == RequestReply.DefaultTimeout
  {
  }

  lemma ConfiguredTimeoutIgnoredExample()
    ensures var c := NewClient(ClientOptions(Some(["broker:9092"]), "svc", None, None, None, Some(5000), Some(["replies"])));
            var r := OnModuleInit(c, Failures(None, None));
            r.error.None? && r.client.kafkaClient.value.requestReply.value.defaultTimeout == 30000
            && DerivedRequestReply(c.options).defaultTimeout == Some(5000)
  {
    var c := NewClient(ClientOptions(Some(["broker:9092"]), "svc", None, None, None, Some(5000), Some(["replies"])));
    ConfiguredTimeoutIgnored(c, Failures(None, None));
  }

  /** Corrected: the engine's default timeout is the module's configured
      `defaultTimeout`, and 30000 only when that is absent or 0 — the same value
      the core is configured with. */
  lemma ConfiguredTimeoutReachesEngine(c: Client, f: Failures)
    requires ValidOptions(c.options) && WantsRequestReply(c.options)
    requires OnModuleInitForwarding(c, f).error.None?
    ensures var engine := OnModuleInitForwarding(c, f).client.kafkaClient.value.requestReply.value;
            && Some(engine.defaultTimeout) == DerivedRequestReply(c.options).defaultTimeout
            && (c.options.defaultTimeout.Some? && c.options.defaultTimeout.value != 0 ==>
                  engine.defaultTimeout == c.options.defaultTimeout.value)
            && engine.listening
  {
  }

  /** After a failed connect the core stays assigned: `getClient()` returns it
      while `isConnected()` is false. */
  lemma FailedConnectKeepsClient(c: Client, f: Failures)
    requires ValidOptions(c.options) && c.kafkaClient.None?
    requires f.connect.Some? && f.connect.value.0 < 2
    ensures OnModuleInit(c, f).error.Some?
    ensures GetClient(OnModuleInit(c, f).client).Ok?
    ensures !IsConnected(OnModuleInit(c, f).client)
  {
  }

  /** A successful start leaves the client connected, listening for replies when
      response topics are configured, and `onModuleDestroy` disconnects it. */
  lemma InitThenDestroy(c: Client)
    requires ValidOptions(c.options)
    ensures var r := OnModuleInitForwarding(c, Failures(None, None));
            && r.error.None? && IsConnected(r.client)
            && (WantsRequestReply(c.options) <==> r.client.kafkaClient.value.requestReply.Some?)
            && (WantsRequestReply(c.options) ==> r.client.kafkaClient.value.requestReply.value.listening)
            && !IsConnected(OnModuleDestroy(r.client))
  {
  }
}

# kafka-client pattern layer in Dafny

This project models the messaging-pattern layer of the `kafka-client` NestJS
package, a thin layer over the kafkajs transport:

- the **request-reply correlation engine**: a requester publishes a command
  under a fresh correlation id, waits on a pending-request table, and settles
  that request exactly once, by a matching reply, its own timer, an expiry
  sweep or `stopListening`;
- the **fire-and-forget publisher**: it stamps `message-id`, `message-type`
  and `timestamp` and normalises custom headers. `message-type` is promoted to
  `request-reply` when a correlation id is present;
- the **consumer service**: the responder side. It parses a message, calls the
  application handler and publishes a success or error envelope to the
  message's `reply-to` topic;
- the **retry escalator** and the **dead-letter listener**: a failure is
  republished with an incremented `retry-count` and exponential back-off, and
  once the count reaches `maxRetries` it goes to `<topic>.dlq` with failure
  metadata, which the listener reads back;
- `KafkaClientError.fromError`, the low-level **core** (`kafka.core.ts`) and
  the **client service** that builds and connects it.

Everything is a pure function over immutable values:

- A component's state is a datatype.
- A publish is a `Publish(topic, records)` value.
- A promise's settlement is an entry in an `outcomes` map.

Header objects are ordered association lists, because kafkajs and JavaScript
objects keep insertion order and the source picks the *first*
case-insensitive key match. Each component's own decoding rule for a header
value (string, buffer, list, `null`, `undefined`, other) is written out
separately, because the rules differ.

Modules, one per file: `Wrappers`, `Numeric` (JavaScript `toString` /
`parseInt(…, 10)`), `Headers`, `Errors`, `Wire` (records, envelopes and what the
transport does to header values), `FireAndForget`, `RequestReply`, `Retry`,
`DeadLetter`, `ConsumerService`, `Core`, `ClientService` and `Exchange`.
`Exchange` holds the properties that span components:

- the request-reply round trip through the consumer service;
- the error envelope's journey;
- retry-to-dead-letter metadata;
- where the header decoders disagree.

## Model

| member | source | states |
|---|---|---|
| Errors.FromError | src/errors/kafka-client.error.ts:25-40 | a `KafkaClientError` passes through unchanged; any other `Error` keeps its message and records its name and stack; a string becomes the message; anything else gets the default message; only a passed-through error carries a code |
| Errors.FromErrorIdempotent | src/errors/kafka-client.error.ts:25-28 | wrapping an already wrapped value again, with any default, changes nothing |
| Errors.FromErrorKeepsErrorMessage | src/errors/kafka-client.error.ts:26-35 | every `Error`, a `KafkaClientError` included, keeps its own message |
| Errors.AsError | src/errors/kafka-client.error.ts:30 | exactly strings and other non-objects are not `Error` instances |
| FireAndForget.DetectMessageType | src/core/patterns/fire-and-forget.pattern.ts:28-45 | the type is one of the two pattern names, and "fire-and-forget" without custom headers |
| FireAndForget.DetectMessageTypeSpec | src/core/patterns/fire-and-forget.pattern.ts:28-45 | "request-reply" if and only if the first key equal to `correlation-id` ignoring case holds something other than `undefined`, `null`, an empty list or an empty buffer |
| FireAndForget.NormaliseCustom | src/core/patterns/fire-and-forget.pattern.ts:60-76 | a custom value is skipped exactly when it is `null` or `undefined` |
| FireAndForget.NormaliseIsStringOfFirstElement | src/core/patterns/fire-and-forget.pattern.ts:60-76 | normalisation is `String` of the value, or of a list's first element, with buffers read as utf-8 |
| FireAndForget.ApplyCustomLookup | src/core/patterns/fire-and-forget.pattern.ts:58-79 | after the custom-header loop every key reads the normalised custom value where one was given, and the earlier value otherwise; keys stay distinct |
| FireAndForget.SendHeaderLookup | src/core/patterns/fire-and-forget.pattern.ts:51-79 | each header of a sent record: a custom value wins over the base `message-id` / `message-type` / `timestamp` |
| FireAndForget.CallerMessageTypeWins | src/core/patterns/fire-and-forget.pattern.ts:51-79 | a caller-supplied `message-type` overrides the detected one; without one the detected type is written |
| FireAndForget.BufferHeaderArrivesAsText | src/core/patterns/fire-and-forget.pattern.ts:71-76 | a custom header holding either the string t or a buffer whose utf-8 text is t is written as the string t |
| FireAndForget.Send | src/core/patterns/fire-and-forget.pattern.ts:20-93 | one publish to the topic, one record keyed by the new message id, carrying the message |
| FireAndForget.BaseHeadersSpec | src/core/patterns/fire-and-forget.pattern.ts:51-55 | the starting headers hold exactly the keys `message-id`, `message-type` and `timestamp`, each once, with the message id, the type and the decimal time |
| FireAndForget.SendBatch | src/core/patterns/fire-and-forget.pattern.ts:96-117 | one publish with one record per message, in order, each keyed by its own id and carrying exactly the headers `message-id` (its id), `message-type` ("fire-and-forget") and `timestamp` (the decimal time) |
| FireAndForget.BatchOfOneIsSend | src/core/patterns/fire-and-forget.pattern.ts:96-117 | a batch of one publishes exactly what a send without custom headers publishes |
| RequestReply.NewEngine | src/core/patterns/request-reply.pattern.ts:29 | an empty engine whose default timeout is the configured one, or 30000 when that is absent or 0 |
| RequestReply.RequestTimeout | src/core/patterns/request-reply.pattern.ts:85 | a request's timeout is its own when given and non-zero, and the engine's default otherwise |
| RequestReply.StartListening | src/core/patterns/request-reply.pattern.ts:33-54 | subscribes once; a second call while listening changes nothing; the table is untouched |
| RequestReply.StopListening | src/core/patterns/request-reply.pattern.ts:57-74 | when listening, every pending request is rejected with "RequestReply stopped" and the table emptied; earlier outcomes are kept; when not listening nothing changes |
| RequestReply.RequestHeadersSpec | src/core/patterns/request-reply.pattern.ts:108-114 | the request headers are the four base headers, each overridden by a caller header of the same name, plus the caller's other headers |
| RequestReply.Send | src/core/patterns/request-reply.pattern.ts:77-131 | the entry is registered under the new id with the request timeout (`timeout` or the default) before the publish; other entries and all outcomes are unchanged; the pending count grows by one; one record keyed by the id |
| RequestReply.SendRecordHeaders | src/core/patterns/request-reply.pattern.ts:108-126 | for any caller headers with distinct keys, the published request carries under each key the caller's header where one is given (spread last, so it overrides) and otherwise the base `correlation-id`, `reply-to`, `message-type` or `timestamp`, and no other key |
| RequestReply.TimerFires | src/core/patterns/request-reply.pattern.ts:89-97 | a pending request's timer removes it and rejects it with a timeout error naming the duration and id; a cleared timer changes nothing |
| RequestReply.MessageTypeText | src/core/patterns/request-reply.pattern.ts:146-149 | a buffer reads as its utf-8 text and a string as itself; any other falsy value reads as the empty string and any other truthy value as `String(value)` |
| RequestReply.DecodeCorrelationId | src/core/patterns/request-reply.pattern.ts:174-185 | a buffer decodes as its utf-8 text, a string as itself, a list by its first element (a buffer as utf-8, anything else through `String`), any other value through `String` |
| RequestReply.ReplyCorrelationId | src/core/patterns/request-reply.pattern.ts:134-185 | no id without a value or headers, for a fire-and-forget message, or without a case-insensitive `correlation-id` key; an id is always the decoding of a truthy value under the first matching key |
| RequestReply.ReplyCorrelationIdOfMatch | src/core/patterns/request-reply.pattern.ts:157-185 | a reply that passes the early returns answers the id its matched header decodes to |
| RequestReply.Settle | src/core/patterns/request-reply.pattern.ts:198-220 | a success envelope resolves with its data; a failure envelope rejects with an `RpcRequestError` whose message is `message \|\| error \|\| "Unknown error"`, status `statusCode \|\| 500` and name `error \|\| "InternalServerError"`; a parse failure rejects with `fromError(…, "Failed to parse response")` |
| RequestReply.HandleResponse | src/core/patterns/request-reply.pattern.ts:134-221 | a reply naming a pending request removes exactly that entry and records its settlement; every other inbound message leaves the engine unchanged |
| RequestReply.CleanupOldRequests | src/core/patterns/request-reply.pattern.ts:229-247 | removes exactly the entries strictly older than `maxAge`, rejects each with "Request expired", keeps the rest and earlier outcomes, and returns how many it removed |
| RequestReply.MaxAge | src/core/patterns/request-reply.pattern.ts:229 | the sweep's age limit is the given one, and 60000 only when none is given |
| RequestReply.PendingCountStep | src/core/patterns/request-reply.pattern.ts:77-247 | the pending count (`getPendingRequestsCount`) grows by one with a send, drops by one with a reply or a timer naming a pending request, drops by the number a sweep reports, becomes 0 when a listening engine stops, and is otherwise unchanged |
| RequestReply.CleanupOfEmptyTable | src/core/patterns/request-reply.pattern.ts:229-247 | a sweep of an empty table removes nothing and returns 0 |
| RequestReply.SendKeepsSettlement | src/core/patterns/request-reply.pattern.ts:99-104 | registering a fresh id keeps pending and settled ids apart and changes no outcome |
| RequestReply.ReplyKeepsSettlement | src/core/patterns/request-reply.pattern.ts:187-220 | a reply settles only a pending id, once, and never overwrites an outcome |
| RequestReply.TimerKeepsSettlement | src/core/patterns/request-reply.pattern.ts:89-97 | a timer settles only a pending id, once |
| RequestReply.SweepKeepsSettlement | src/core/patterns/request-reply.pattern.ts:233-240 | a sweep settles only pending ids, once each |
| RequestReply.StopKeepsSettlement | src/core/patterns/request-reply.pattern.ts:62-69 | stopping settles only pending ids, once each |
| RequestReply.StepSettlesOnce | src/core/patterns/request-reply.pattern.ts:77-247 | any one event keeps pending and settled ids apart, never changes an outcome, gives an outcome to every id it removes, and settles only ids that were pending |
| RequestReply.RunSettlesOnce | src/core/patterns/request-reply.pattern.ts:77-247 | over any trace of events with fresh ids, every request is settled at most once and a pending request never disappears without an outcome |
| Retry.NewConfig | src/core/retry/retry-handler.ts:18-24 | `maxRetries` and `baseDelay` are the configured values or 3 and 1000 when absent or 0; back-off is on unless explicitly `false` |
| Retry.RetryCountReads | src/core/retry/retry-handler.ts:106-117 | without headers, without a `retry-count` key or with a null one the count is 0; a string or buffer reads as `parseInt(text, 10)`, a list as `parseInt` of its joined text, any other value as `parseInt(String(value))` when truthy and 0 otherwise, with NaN and 0 both reading 0 |
| Retry.HandleError | src/core/retry/retry-handler.ts:28-103 | exactly one publish with key and value unchanged: to the original topic while the count is below `maxRetries`, to `<topic>.dlq` (with no sleep) once it is not; below the ceiling the sleep is exactly the back-off delay for the incremented count, and there is no sleep when that delay is 0 |
| Retry.RetryHeadersSpec | src/core/retry/retry-handler.ts:57-71 | a retry keeps the original headers and overwrites exactly `retry-count`, `retry-timestamp` and `last-error` |
| Retry.DeadLetterHeadersSpec | src/core/retry/retry-handler.ts:84-100 | a dead-letter publish keeps the original headers and adds `original-topic`, `error`, `error-stack` (empty without a stack), `failed-at` and `total-retries` equal to the configured ceiling |
| Retry.BackoffDoubles | src/core/retry/retry-handler.ts:120-127 | with back-off each delay is twice the previous one, starting at `baseDelay` |
| Retry.RetryCountWritten | src/core/retry/retry-handler.ts:57-71 | whatever headers the message had, a retry's `retry-count` header is the decimal text of the new count |
| Retry.RetryCountRoundTrip | src/core/retry/retry-handler.ts:49-71 | the count a retry writes is the count the next call reads |
| Retry.DeliveredCount | src/core/retry/retry-handler.ts:106-117 | the transport turning string headers into buffers does not change the count read |
| Retry.RetryStep | src/core/retry/retry-handler.ts:28-71 | below the ceiling, the message a failure republishes, when the count read was n - 1, is the original with n, the timestamp and the error written over its headers, key and value unchanged |
| Retry.RetriedKeepsRecord | src/core/retry/retry-handler.ts:57-71 | any number of retries leaves the key and the value as they were |
| Retry.RetriedCount | src/core/retry/retry-handler.ts:49-71 | after k retries of a message that had none, the next call reads a count of k |
| Retry.RetriedIsRepublished | src/core/retry/retry-handler.ts:28-71 | the message after k retries, as the consumer receives it, is exactly what the k-th failure publishes when handed the message after k - 1 |
| Retry.RetriesThenDeadLetter | src/core/retry/retry-handler.ts:28-117 | feeding each republished message back in as the consumer receives it: the k-th failure republishes with count k for k up to `maxRetries`, and the next goes to the dead-letter topic; key and value never change |
| DeadLetter.Start | src/core/retry/dlq-handler.ts:26-47 | subscribes to the given topics once; starting a running handler changes nothing |
| DeadLetter.Stop | src/core/retry/dlq-handler.ts:50-58 | disconnects once; stopping a stopped handler changes nothing |
| DeadLetter.StartStopIdempotent | src/core/retry/dlq-handler.ts:26-58 | starting twice is starting once; stopping twice is stopping once |
| DeadLetter.GetHeaderValue | src/core/retry/dlq-handler.ts:102-117 | no value for a falsy header or a list whose first element is `null` / `undefined`; otherwise the list's first element or the value, as a string |
| DeadLetter.Simplified | src/core/retry/dlq-handler.ts:123-136 | a falsy value is dropped; a truthy non-list is kept as it is; a list is replaced by its first element when that is truthy and dropped otherwise |
| DeadLetter.SimplifyIntoLookup | src/core/retry/dlq-handler.ts:120-140 | the simplified headers hold, under each key, the simplified value where it is kept, and no other key |
| DeadLetter.SimplifyHeadersLookup | src/core/retry/dlq-handler.ts:120-140 | every key of the simplified headers reads as a truthy non-list or as absent |
| DeadLetter.HandleDlqMessage | src/core/retry/dlq-handler.ts:61-99 | the callback receives the message with its simplified headers and the metadata read with the defaults "unknown", "Unknown error", "" and "0"; a callback failure is wrapped with `fromError` and swallowed |
| DeadLetter.ReadsAgreeWithSimplified | src/core/retry/dlq-handler.ts:102-140 | for transport-typed headers, metadata read from the raw headers equals metadata read from the simplified headers the callback receives |
| ConsumerService.OnModuleInit | src/main/consumer/kafka-consumer.service.ts:30-62 | a missing group id is refused before anything is created; a client error reaches the caller; a start failure is wrapped; the consumer stays assigned after a failed start; success exactly when nothing fails |
| ConsumerService.OnModuleDestroy | src/main/consumer/kafka-consumer.service.ts:219-226 | disconnects exactly when a consumer was created |
| ConsumerService.GetHeaderValue | src/main/consumer/kafka-consumer.service.ts:200-216 | agrees with the dead-letter listener's reader on present headers, and has no value without headers |
| ConsumerService.ReplyTarget | src/main/consumer/kafka-consumer.service.ts:89-90 | a reply target exists if and only if both `reply-to` and `correlation-id` read as non-empty strings |
| ConsumerService.HandlerText | src/main/consumer/kafka-consumer.service.ts:96-101 | only `null` has no string; a string is itself; a buffer or other value is its `toString()`; a list is its first element when that is a string, its `toString()` when that is truthy, and the empty string when the list is empty or starts with `null` / `undefined` |
| ConsumerService.HandlerHeaders | src/main/consumer/kafka-consumer.service.ts:93-104 | building the handler's header record fails if and only if some header value is `null` |
| ConsumerService.HandlerHeadersIntoLookup | src/main/consumer/kafka-consumer.service.ts:93-103 | without `null` values the header loop succeeds, keeps keys distinct, and each key reads as the converted entry where the message has one and the earlier value otherwise |
| ConsumerService.HandlerHeadersLookup | src/main/consumer/kafka-consumer.service.ts:93-103 | the handler's header record holds, under each key of a message without `null` values, exactly the string the conversion gives that key's value, and nothing for an absent key |
| ConsumerService.MapError | src/main/consumer/kafka-consumer.service.ts:140-167 | an `RpcException` contributes the fields its object payload has, or its string payload as the message; any other `Error` contributes its name, message and own `statusCode`; anything else gives 500, "InternalServerError", "Unknown error occurred" |
| ConsumerService.Reply | src/main/consumer/kafka-consumer.service.ts:185-197 | one publish of one record carrying the envelope to the reply topic |
| ConsumerService.Recover | src/main/consumer/kafka-consumer.service.ts:130-181 | the catch block: an error reply when there is a reply target; a failure of that publish is swallowed; nothing escapes |
| ConsumerService.AnswerTo | src/main/consumer/kafka-consumer.service.ts:118-127 | with a reply target the success reply is sent first, then an error reply if and only if that publish fails |
| ConsumerService.Answer | src/main/consumer/kafka-consumer.service.ts:118-127 | a success reply if and only if there is a reply target |
| ConsumerService.Attempt | src/main/consumer/kafka-consumer.service.ts:106-181 | the handler runs if and only if parsing succeeds; success reply if and only if parsing and handler succeed with a target; error reply if and only if some step fails with a target; at most two replies, all to the target |
| ConsumerService.HandleMessage | src/main/consumer/kafka-consumer.service.ts:85-182 | a `null` header escapes as a `TypeError` before anything runs; a `null` value sends nothing; otherwise as `Attempt` with the handler's header record and the message's reply target |
| Core.NewCore | src/core/kafka.core.ts:33-70 | consumer group is the configured one or "<clientId>-consumer"; a dead-letter consumer and handler exist if and only if dead-letter options are given, its group defaulting to "<clientId>-dlq-consumer" |
| Core.InitRequestReply | src/core/kafka.core.ts:73-99 | creates the engine with the options' default timeout; fails with REQUEST_REPLY_ALREADY_INITIALIZED if and only if one exists |
| Core.InitRequestReplyOnce | src/core/kafka.core.ts:73-99 | a second call fails whatever its arguments and the first engine stays |
| Core.Connect | src/core/kafka.core.ts:102-117 | connecting a connected core changes nothing; otherwise producer, consumer, then dead-letter consumer in order; a failing step stops there and leaves the core disconnected |
| Core.Disconnect | src/core/kafka.core.ts:120-142 | nothing when not connected; otherwise stops the engine and the dead-letter handler, then disconnects the transports in order |
| Core.ConnectDisconnectStatus | src/core/kafka.core.ts:102-147 | after a successful connect the status is connected and a second connect is a no-op; after disconnect it is disconnected and a second disconnect is a no-op |
| Core.DisconnectSettlesPending | src/core/kafka.core.ts:125-127 | disconnecting rejects every pending request with "RequestReply stopped" before any transport is disconnected |
| Core.DlqConsumerDisconnectedTwice | src/core/kafka.core.ts:129-138 | a running dead-letter consumer is disconnected by the handler's `stop()` and again by the core |
| ClientService.DerivedRequestReply | src/main/client/kafka-client.service.ts:68-71 | the request-reply options carry `defaultTimeout \|\| 30000` and the group "<clientId>-request-reply" |
| ClientService.DerivedCoreOptions | src/main/client/kafka-client.service.ts:42-74 | timeouts and transport retries default only when absent (10000, 30000, 8/300/30000); no dead-letter handler |
| ClientService.InitWith | src/main/client/kafka-client.service.ts:37-104 | the core is kept even after a failed connect; an engine exists if and only if response topics are configured and connect succeeds; it listens if and only if subscribing succeeds; a connect or subscribe failure reaches the caller as `fromError(error, "Failed to initialize Kafka Client")` |
| ClientService.OnModuleInit | src/main/client/kafka-client.service.ts:25-105 | invalid options are refused before anything is built; as written, the engine's default timeout is always 30000; with nothing failing the client is connected; a connect or subscribe failure is rethrown through `fromError` with "Failed to initialize Kafka Client" |
| ClientService.OnModuleInitForwarding | src/main/client/kafka-client.service.ts:25-105 | the corrected variant: the engine's default timeout is the derived `defaultTimeout \|\| 30000` |
| ClientService.NewClient | src/main/client/kafka-client.service.ts:108-128 | before `onModuleInit()` the service has no core: `getClient()` fails with CLIENT_NOT_INITIALIZED, `isConnected()` is false and `onModuleDestroy()` does nothing |
| ClientService.OnModuleDestroy | src/main/client/kafka-client.service.ts:108-115 | disconnects the core when there is one |
| ClientService.RequestReplyGuardUnreachable | src/main/client/kafka-client.service.ts:83-90 | on a freshly built, connected core `initRequestReply` always succeeds and leaves an engine, so the REQUEST_REPLY_INIT_FAILED guard cannot fire |
| ClientService.ConfiguredTimeoutIgnored | src/main/client/kafka-client.service.ts:83 | as written, the engine's default timeout is 30000 whatever `defaultTimeout` is configured |
| ClientService.ConfiguredTimeoutIgnoredExample | src/main/client/kafka-client.service.ts:69-83 | with `defaultTimeout` 5000 configured the engine still uses 30000 |
| ClientService.ConfiguredTimeoutReachesEngine | src/main/client/kafka-client.service.ts:69-83 | corrected: the engine's default timeout is the configured `defaultTimeout`, 30000 only when that is absent or 0 |
| ClientService.FailedConnectKeepsClient | src/main/client/kafka-client.service.ts:57-77 | after a failed connect `getClient()` still returns the core while `isConnected()` is false |
| ClientService.InitThenDestroy | src/main/client/kafka-client.service.ts:25-115 | a successful start is connected and listening if and only if response topics are configured; `onModuleDestroy` disconnects it |
| Exchange.ReplyHeadersOfSend | src/main/consumer/kafka-consumer.service.ts:194-196 | a responder's reply carries the base headers with the type promoted to "request-reply", then the correlation id |
| Exchange.RequestReachesResponder | src/core/patterns/request-reply.pattern.ts:108-114 | the consumer service reads the request's reply topic and correlation id back after transport |
| Exchange.ReplyMatchesRequest | src/core/patterns/request-reply.pattern.ts:146-185 | the engine reads a reply's correlation id back as the request's id |
| Exchange.ResponderAnswers | src/main/consumer/kafka-consumer.service.ts:85-127 | a delivered request whose handler answers produces exactly one success reply to the request's reply topic under its correlation id |
| Exchange.EngineSettlesReply | src/core/patterns/request-reply.pattern.ts:187-202 | the success reply to a pending request resolves exactly that request with the reply's data |
| Exchange.RequestReplyRoundTrip | src/core/patterns/request-reply.pattern.ts:77-221 | end to end: the request reaches the handler unchanged, one reply goes to the response topic, and reading it back resolves the request with the handler's data, restoring the table and the pending count |
| Exchange.FireAndForgetIgnoredByEngine | src/core/patterns/request-reply.pattern.ts:146-153 | a fire-and-forget message without a correlation id, read by the engine after transport, carries its type as a buffer and leaves the engine unchanged |
| Exchange.HandlerErrorReachesCaller | src/core/patterns/request-reply.pattern.ts:204-211 | an error envelope whose fields are all truthy reaches the requester as an `RpcRequestError` with exactly those fields |
| Exchange.RpcExceptionReachesCaller | src/main/consumer/kafka-consumer.service.ts:144-156 | an `RpcException` with a full object payload is rebuilt on the requester's side field for field |
| Exchange.ErrorEnvelopeLossy | src/core/patterns/request-reply.pattern.ts:205-207 | status code 0 and an empty message reach the requester as status 500 with the error name as message |
| Exchange.DeadLetterRoundTrip | src/core/retry/dlq-handler.ts:68-72 | a message escalated to the dead-letter topic reaches the listener's callback with its original topic, error message and stack, failure time and the configured retry ceiling, key and value unchanged |
| Exchange.DeliveredText | src/core/retry/dlq-handler.ts:102-117 | the listener reads each metadata header back as the text the escalator wrote |
| Exchange.EmptyListCorrelationId | src/core/patterns/request-reply.pattern.ts:167-185 | a `correlation-id` holding an empty list is read as the id "undefined" by the engine, as absent by the consumer service (no reply is sent), and as absent by the publisher's detection |

## Left out

- The kafkajs transport is reduced to the calls made on it: producers, consumers, subscriptions and the consume loop. A publish is a value, and each publish failure is an input.
- Random UUIDs are parameters. Freshness of a request id is the `Fresh` precondition, stating that the generator never repeats an id.
- `Date.now()` is a parameter, and the model collapses the several clock reads of one call into a single `now`: the request-reply `send` reads the clock for the entry (request-reply.pattern.ts:103) and again for the `timestamp` header (:112); `sendBatch` reads it once per message (fire-and-forget.pattern.ts:106); a consumer reply reads it for the envelope (kafka-consumer.service.ts:125) and again for the header (fire-and-forget.pattern.ts:54). The values may differ in the source by the time elapsed between reads.
- Timers and their firing are `TimerEvent`s, and the sleep before a retry is returned as a request.
- Promises are the `outcomes` map, and awaiting is not modelled: each event is one transition. The source's steps between awaits are atomic, but a method that awaits before setting its flag can be entered twice; overlapping calls of these are not modelled, and each would subscribe or connect twice in the source:
  - `startListening` (request-reply.pattern.ts:41-52), whose `isListening` is set only after subscribe and run;
  - `stopListening` (request-reply.pattern.ts:71-72), whose `isListening` is cleared only after the consumer disconnects;
  - `DLQHandler.start` (dlq-handler.ts:34-45), whose `isRunning` is set only after subscribe and run;
  - `KafkaCore.connect` (kafka.core.ts:108-115), whose `isConnected` is set only after every connect.
- JSON encoding is abstracted: a message body is a `Json` value, and the requester reads a reply as an already decoded `Envelope`. `JSON.parse` of the consumer's input is an input outcome.
- Core.NewCore: the core's `producer` and `consumer` pass-through options are not modelled. They are spread last into the kafkajs configs (kafka.core.ts:41-44, 48-51, 55-58), so a `groupId` among the consumer options would override both the request-reply and the dead-letter group ids. The client service never passes them (kafka-client.service.ts:57-74), so the group ids above are the ones the package uses.
- Logging, NestJS dependency injection and module wiring, the producer service and the topics enum are not modelled.
- `toLowerCase` is modelled on ASCII letters only, since header keys are ASCII.
- Numbers are integers: floating-point timeouts and NaN are not modelled. `parseInt` returns `None` for NaN, and the back-off delay is a `real`.
- JavaScript objects list integer-like keys before other keys; header keys are assumed not to be integer-like.
- Core.Disconnect: does not model a failing stop or disconnect call. Each step is assumed to succeed, because no caller handles such a failure.
- DeadLetter.Start: does not model a failing subscribe or run, because the source lets that error reach the caller unchanged.
- DeadLetter.HandleDlqMessage: the user callback is reduced to whether and with what it fails; its own effects are outside the model.
- ConsumerService.Reply: the `getClient()` failure inside `sendResponse` is not distinguished from a publish failure. Both are the behaviour's reply failure.
- RequestReply.StopListening: the request-reply consumer's own `disconnect()` call is not recorded in the engine.
- Errors.FromError: the `stack` of a `KafkaClientError` itself is not modelled; for other errors the stack is an optional text.
- Retry.Retried: all retries share one `now`, because the retry timestamp does not affect escalation.

Behaviours worth noting, which the model keeps as the code has them:

- When the publisher detects a correlation id, an empty **string** counts as present (fire-and-forget.pattern.ts:37-41), so a send with `correlation-id: ""` is typed "request-reply". Only `undefined`, `null`, an empty list and an empty buffer count as absent.
- The engine's guard whose log message says the correlation-id value "is empty" (request-reply.pattern.ts:167-170) is a JavaScript truthiness test. An empty list or empty buffer passes it, and an empty list is then read as the id "undefined" (`Exchange.EmptyListCorrelationId`).
- A `null` header value makes the consumer service's header loop throw before its `try` block (kafka-consumer.service.ts:93-104). That error escapes `handleMessage` instead of being turned into an error reply.
- Two different "unknown" messages reach a requester. An error envelope with neither `message` nor `error` is rejected with "Unknown error" (request-reply.pattern.ts:205). The consumer's error reply starts from its own "Unknown error occurred" (kafka-consumer.service.ts:142), the same text as the `fromError` default (kafka-client.error.ts:25) but a separate literal.

## Findings

| source | as written | input that shows it | evidently intended | confidence | as-written member | corrected member |
|---|---|---|---|---|---|---|
| src/main/client/kafka-client.service.ts:83 | `initRequestReply(responseTopics)` is called without options, so the engine keeps its own 30000 default; the `defaultTimeout` passed to the core at line 69 only reaches the core's options | module options with `defaultTimeout: 5000` and one response topic: the engine's default timeout is 30000 | the engine uses the configured `defaultTimeout` (`defaultTimeout \|\| 30000`) | not executed | ClientService.ConfiguredTimeoutIgnored | ClientService.ConfiguredTimeoutReachesEngine |

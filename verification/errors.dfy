/** Thrown values and the package's two error classes.

    JavaScript can throw anything. The layer distinguishes a `KafkaClientError`,
    any other `Error` instance (read through its name, message, stack and an
    optional `statusCode` property), a NestJS `RpcException` (an `Error` that also
    carries a payload), a string, and everything else. */
module Errors {
  import opened Wrappers

  /** What the layer reads from an `Error` instance. */
  datatype ErrorInfo = ErrorInfo(name: string, message: string, stack: Option<string>, statusCode: Option<int>)

  /** The payload given to an `RpcException`: an object whose fields may each be
      present or not, a string, or anything else. */
  datatype RpcPayload =
    | ObjectPayload(statusCode: Option<int>, error: Option<string>, message: Option<string>)
    | StringPayload(s: string)
    | OtherPayload

  datatype Thrown =
    | ClientError(err: KafkaClientError)
    | ErrorObj(info: ErrorInfo)
    | RpcExc(payload: RpcPayload, info: ErrorInfo)
    | StrValue(s: string)
    | OtherValue(text: string)

  /** The `details` record of a `KafkaClientError`. */
  datatype Details =
    | NoDetails
    | FromErrorInstance(originalError: string, stack: Option<string>)  // `{originalError: name, stack}`
    | FromValue(original: Thrown)                                       // `{originalError: value}`

  /** A `KafkaClientError`; its `name` is always "KafkaClientError" (see `ErrorName`). */
  datatype KafkaClientError = KafkaClientError(message: string, code: Option<string>, details: Details)

  /** An `RpcRequestError`; its `name` is always "RpcRequestError". */
  datatype RpcRequestError = RpcRequestError(message: string, statusCode: int, errorName: string)

  const ErrorName := "KafkaClientError"
  const DefaultFromErrorMessage := "Unknown error occurred"

  /** `KafkaClientError.isKafkaClientError(t)`. */
  predicate IsKafkaClientError(t: Thrown) {
    t.ClientError?
  }

  /** `t instanceof Error`, and what can then be read from `t`. A
      `KafkaClientError` has no `statusCode` property; its stack is not modelled. */
  function AsError(t: Thrown): (r: Option<ErrorInfo>)
    ensures r.None? <==> (t.StrValue? || t.OtherValue?)
    ensures t.ClientError? ==> r == Some(ErrorInfo(ErrorName, t.err.message, None, None))
  {
    match t
    case ClientError(e) => Some(ErrorInfo(ErrorName, e.message, None, None))
    case ErrorObj(i) => Some(i)
    case RpcExc(_, i) => Some(i)
    case StrValue(_) => None
    case OtherValue(_) => None
  }

  /** `KafkaClientError.fromError(t, defaultMessage)`: any thrown value as a
      `KafkaClientError`. */
  function FromError(t: Thrown, defaultMessage: string): (r: KafkaClientError)
    ensures IsKafkaClientError(t) ==> r == t.err
    ensures !IsKafkaClientError(t) ==> r.code.None?
    ensures t.StrValue? ==> r.message == t.s && r.details == FromValue(t)
    ensures t.OtherValue? ==> r.message == defaultMessage && r.details == FromValue(t)
    ensures (t.ErrorObj? || t.RpcExc?) ==>
              r.message == t.info.message && r.details == FromErrorInstance(t.info.name, t.info.stack)
  {
    match t
    case ClientError(e) => e
    case ErrorObj(i) => KafkaClientError(i.message, None, FromErrorInstance(i.name, i.stack))
    case RpcExc(_, i) => KafkaClientError(i.message, None, FromErrorInstance(i.name, i.stack))
    case StrValue(s) => KafkaClientError(s, None, FromValue(t))
    case OtherValue(_) => KafkaClientError(defaultMessage, None, FromValue(t))
  }

  /** Wrapping an already wrapped value changes nothing, whatever default is given. */
  lemma FromErrorIdempotent(t: Thrown, d: string, d': string)
    ensures FromError(ClientError(FromError(t, d)), d') == FromError(t, d)
  {
  }

  /** Every `Error`, a `KafkaClientError` included, keeps its own message. */
  lemma FromErrorKeepsErrorMessage(t: Thrown, d: string)
    ensures AsError(t).Some? ==> FromError(t, d).message == AsError(t).value.message
  {
  }
}

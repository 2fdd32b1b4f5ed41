/**
 * The error body that the global exception filter sends for anything a
 * handler throws: the status, the `code`, the `message` and the `details`
 * chosen from the thrown value, wrapped in the failure envelope.
 */
module HttpErrors {
  import opened Wrappers
  import opened Text

  const INTERNAL_SERVER_ERROR_STATUS: int := 500
  const INTERNAL_SERVER_ERROR_CODE: string := "INTERNAL_SERVER_ERROR"
  const UNNAMED_STATUS_CODE: string := "HTTP_EXCEPTION"
  const DEFAULT_MESSAGE: string := "Internal server error"

  /** The `message` property of an object payload, by its runtime type. */
  datatype MessageField =
    | StringMessage(text: string)
    | ArrayMessage(items: seq<string>)   // each element as `join` renders it
    | OtherMessage                       // absent, a number, an object, ...

  /** An object payload: its `message` and its other properties. */
  datatype PayloadObject = PayloadObject(message: MessageField, fields: map<string, string>)

  /** What `getResponse()` of an `HttpException` returns, by its runtime type. */
  datatype Payload =
    | StringPayload(text: string)
    | ObjectPayload(obj: PayloadObject)
    | FalsyOrScalarPayload               // null, a number, a boolean, ...

  /** The thrown value. */
  datatype Thrown =
    | HttpError(status: int, payload: Payload, errorMessage: string)  // an `HttpException`
    | PlainError(errorMessage: string)                                // another `Error`
    | NotAnError                                                      // any other value

  datatype ErrorInfo = ErrorInfo(code: string, message: string, details: Option<PayloadObject>)

  datatype ErrorBody = ErrorBody(
    success: bool,
    statusCode: int,
    error: ErrorInfo,
    timestamp: string,
    path: string)

  /** The status sent. */
  function StatusOf(e: Thrown): int
  {
    if e.HttpError? then e.status else INTERNAL_SERVER_ERROR_STATUS
  }

  /** The `code`; `statusName` is the reverse lookup of the status enumeration. */
  function CodeOf(e: Thrown, statusName: int -> Option<string>): string
  {
    if e.HttpError? then statusName(e.status).GetOr(UNNAMED_STATUS_CODE)
    else INTERNAL_SERVER_ERROR_CODE
  }

  /** The message an object payload yields. */
  function ObjectMessage(obj: PayloadObject): string
  {
    match obj.message
    case StringMessage(text) => text
    case ArrayMessage(items) => Join(items, ", ")
    case OtherMessage => DEFAULT_MESSAGE
  }

  /** The `message` and `details` of the error: the if/else chain over the payload. */
  function MessageAndDetails(e: Thrown): (string, Option<PayloadObject>)
  {
    if e.HttpError? && e.payload.StringPayload? then (e.payload.text, None)
    else if e.HttpError? && e.payload.ObjectPayload? then
      (ObjectMessage(e.payload.obj), Some(e.payload.obj))
    else if e.HttpError? || e.PlainError? then
      (if e.errorMessage != "" then e.errorMessage else DEFAULT_MESSAGE, None)
    else (DEFAULT_MESSAGE, None)
  }

  /** The body the filter writes; the clock reading and the request URL are parameters. */
  function BuildErrorBody(e: Thrown, statusName: int -> Option<string>, timestamp: string, url: string): ErrorBody
  {
    var (message, details) := MessageAndDetails(e);
    ErrorBody(false, StatusOf(e), ErrorInfo(CodeOf(e, statusName), message, details), timestamp, url)
  }

  /**
   * The envelope: never successful, the request URL as `path`, the clock reading as
   * `timestamp`; the status is the exception's own for an `HttpException` and 500 for
   * anything else; the code is the status's name in the enumeration, `HTTP_EXCEPTION`
   * when it has none, and `INTERNAL_SERVER_ERROR` for anything that is not an `HttpException`.
   */
  lemma BodyEnvelope(e: Thrown, statusName: int -> Option<string>, timestamp: string, url: string)
    ensures var body := BuildErrorBody(e, statusName, timestamp, url);
      && !body.success && body.path == url && body.timestamp == timestamp
      && (e.HttpError? ==> body.statusCode == e.status)
      && (!e.HttpError? ==> body.statusCode == 500)
      && (e.HttpError? && statusName(e.status).Some? ==> body.error.code == statusName(e.status).value)
      && (e.HttpError? && statusName(e.status).None? ==> body.error.code == UNNAMED_STATUS_CODE)
      && (!e.HttpError? ==> body.error.code == INTERNAL_SERVER_ERROR_CODE)
  {
  }

  /**
   * With the enumeration naming 500 as it does, an `HttpException` with status 500 and a
   * value that is not one get the same status and the same code.
   */
  lemma InternalErrorsAgree(payload: Payload, errorMessage: string, other: Thrown,
                            statusName: int -> Option<string>, timestamp: string, url: string)
    requires !other.HttpError?
    requires statusName(500) == Some(INTERNAL_SERVER_ERROR_CODE)
    ensures var a := BuildErrorBody(HttpError(500, payload, errorMessage), statusName, timestamp, url);
      var b := BuildErrorBody(other, statusName, timestamp, url);
      a.statusCode == b.statusCode && a.error.code == b.error.code
  {
  }

  /** A string payload is the message verbatim, even when empty, and carries no details. */
  lemma StringPayloadVerbatim(status: int, text: string, errorMessage: string, statusName: int -> Option<string>, timestamp: string, url: string)
    ensures var body := BuildErrorBody(HttpError(status, StringPayload(text), errorMessage), statusName, timestamp, url);
      body.error.message == text && body.error.details.None? && body.statusCode == status
  {
  }

  /**
   * An object payload: a string `message` is used as it is, an array
   * `message` is joined with ", ", and anything else leaves the default; the
   * payload itself becomes `details` in every case.
   */
  lemma ObjectPayloadRules(status: int, obj: PayloadObject, errorMessage: string, statusName: int -> Option<string>, timestamp: string, url: string)
    ensures var body := BuildErrorBody(HttpError(status, ObjectPayload(obj), errorMessage), statusName, timestamp, url);
      body.error.details == Some(obj)
      && (obj.message.StringMessage? ==> body.error.message == obj.message.text)
      && (obj.message.ArrayMessage? ==> body.error.message == Join(obj.message.items, ", "))
      && (obj.message.OtherMessage? ==> body.error.message == DEFAULT_MESSAGE)
  {
  }

  /** An array of one message is that message; an empty array gives the empty message. */
  lemma ArrayMessageEdgeCases(status: int, items: seq<string>, fields: map<string, string>, errorMessage: string)
    requires |items| <= 1
    ensures var (message, _) := MessageAndDetails(HttpError(status, ObjectPayload(PayloadObject(ArrayMessage(items), fields)), errorMessage));
      (items == [] ==> message == "") && (|items| == 1 ==> message == items[0])
  {
  }

  /**
   * An `Error` whose payload is neither a string nor an object (a plain
   * `Error`, or an `HttpException` built from a falsy or scalar response)
   * reports its own message unless that is empty, and a non-empty message
   * is never replaced by the default.
   */
  lemma ErrorMessageUnlessEmpty(e: Thrown, statusName: int -> Option<string>, timestamp: string, url: string)
    requires e.PlainError? || (e.HttpError? && e.payload.FalsyOrScalarPayload?)
    ensures var body := BuildErrorBody(e, statusName, timestamp, url);
      body.error.details.None?
      && (e.errorMessage != "" <==> body.error.message == e.errorMessage)
      && (e.errorMessage == "" ==> body.error.message == DEFAULT_MESSAGE)
  {
  }

  /** A value that is not an `Error` gives 500, the default code and message, and no details. */
  lemma NonErrorIsInternal(statusName: int -> Option<string>, timestamp: string, url: string)
    ensures var body := BuildErrorBody(NotAnError, statusName, timestamp, url);
      body.statusCode == 500 && body.error.code == INTERNAL_SERVER_ERROR_CODE
      && body.error.message == DEFAULT_MESSAGE && body.error.details.None?
  {
  }

  /** `details` is present exactly when an `HttpException` carries an object payload, and it is that payload. */
  lemma DetailsIffObjectPayload(e: Thrown)
    ensures MessageAndDetails(e).1.Some? <==> (e.HttpError? && e.payload.ObjectPayload?)
    ensures MessageAndDetails(e).1.Some? ==> MessageAndDetails(e).1.value == e.payload.obj
  {
  }

  /**
   * The message is empty only when an `HttpException`'s own payload supplies an empty
   * one (an empty string, an empty string `message`, or an array joining to ""); the
   * `Error` branch never sends an empty message.
   */
  lemma EmptyMessageOnlyFromPayload(e: Thrown)
    ensures MessageAndDetails(e).0 == "" <==>
      e.HttpError? && ((e.payload.StringPayload? && e.payload.text == "")
                       || (e.payload.ObjectPayload? && ObjectMessage(e.payload.obj) == ""))
  {
  }
}

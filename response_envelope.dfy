/**
 * The success envelope that the response interceptor wraps around every
 * handler result, and the default message chosen from the request method.
 */
module ResponseEnvelope {
  import opened Wrappers

  const RETRIEVED: string := "Data retrieved successfully"
  const CREATED: string := "Data created successfully"
  const UPDATED: string := "Data updated successfully"
  const DELETED: string := "Data deleted successfully"
  const PROCESSED: string := "Request processed successfully"
  const DEFAULT_STATUS: int := 200

  /** The method-to-message table. */
  const DEFAULT_MESSAGES: map<string, string> :=
    map["GET" := RETRIEVED, "POST" := CREATED, "PUT" := UPDATED, "PATCH" := UPDATED, "DELETE" := DELETED]

  /** The table entry for the request method, or the catch-all message when it has none. */
  function GetDefaultMessage(requestMethod: string): (message: string)
    ensures message != ""
  {
    if requestMethod in DEFAULT_MESSAGES then DEFAULT_MESSAGES[requestMethod] else PROCESSED
  }

  /** The table, entry by entry, and the catch-all for every other method. */
  lemma DefaultMessageTable(requestMethod: string)
    ensures requestMethod == "GET" ==> GetDefaultMessage(requestMethod) == RETRIEVED
    ensures requestMethod == "POST" ==> GetDefaultMessage(requestMethod) == CREATED
    ensures requestMethod == "PUT" || requestMethod == "PATCH" ==> GetDefaultMessage(requestMethod) == UPDATED
    ensures requestMethod == "DELETE" ==> GetDefaultMessage(requestMethod) == DELETED
    ensures requestMethod !in {"GET", "POST", "PUT", "PATCH", "DELETE"} ==> GetDefaultMessage(requestMethod) == PROCESSED
  {
  }

  /** The five messages are told apart only by the method: PUT and PATCH are the one pair that share one. */
  lemma DefaultMessageSharedOnlyByUpdates(m1: string, m2: string)
    requires m1 in DEFAULT_MESSAGES && m2 in DEFAULT_MESSAGES && m1 != m2
    ensures GetDefaultMessage(m1) == GetDefaultMessage(m2) <==> {m1, m2} == {"PUT", "PATCH"}
  {
    assert DEFAULT_MESSAGES.Keys == {"GET", "POST", "PUT", "PATCH", "DELETE"};
    if GetDefaultMessage(m1) == GetDefaultMessage(m2) {
      assert m1 in {"PUT", "PATCH"} && m2 in {"PUT", "PATCH"};
    }
  }

  datatype BaseResponse<T> = BaseResponse(
    success: bool,
    statusCode: int,
    message: string,
    data: T,
    timestamp: string)

  /** What the interceptor hands on: the handler's data as it is, or wrapped. */
  datatype Outgoing<T> = Raw(data: T) | Wrapped(response: BaseResponse<T>)

  /** `response.statusCode || 200`. */
  function EffectiveStatus(statusCode: int): (status: int)
    ensures status != 0
    ensures statusCode != 0 ==> status == statusCode
  {
    if statusCode != 0 then statusCode else DEFAULT_STATUS
  }

  /** `customMessage || getDefaultMessage(method)`: an absent or empty custom message falls back. */
  function EnvelopeMessage(customMessage: Option<string>, requestMethod: string): (message: string)
    ensures message != ""
  {
    if customMessage.Some? && customMessage.value != "" then customMessage.value
    else GetDefaultMessage(requestMethod)
  }

  /**
   * The interceptor for one response: with skip-transform set the data goes
   * out unwrapped; otherwise it is wrapped in a successful envelope. The
   * clock reading is a parameter.
   */
  function Intercept<T>(skipTransform: bool, requestMethod: string, customMessage: Option<string>,
                       statusCode: int, data: T, timestamp: string): Outgoing<T>
  {
    if skipTransform then Raw(data)
    else Wrapped(BaseResponse(true, EffectiveStatus(statusCode), EnvelopeMessage(customMessage, requestMethod), data, timestamp))
  }

  /** Skip-transform adds no envelope; otherwise the envelope is successful and carries the data unchanged. */
  lemma InterceptEnvelope<T>(skipTransform: bool, requestMethod: string, customMessage: Option<string>,
                            statusCode: int, data: T, timestamp: string)
    ensures var out := Intercept(skipTransform, requestMethod, customMessage, statusCode, data, timestamp);
      (skipTransform <==> out.Raw?)
      && (out.Raw? ==> out.data == data)
      && (out.Wrapped? ==> out.response.success && out.response.data == data
                           && out.response.timestamp == timestamp)
  {
  }

  /** A falsy status becomes 200; any other is kept. */
  lemma InterceptStatus<T>(requestMethod: string, customMessage: Option<string>, statusCode: int, data: T, timestamp: string)
    ensures var out := Intercept(false, requestMethod, customMessage, statusCode, data, timestamp);
      out.response.statusCode == (if statusCode == 0 then 200 else statusCode)
  {
  }

  /** A non-empty custom message overrides the method default; otherwise the default is used. */
  lemma InterceptMessage<T>(requestMethod: string, customMessage: Option<string>, statusCode: int, data: T, timestamp: string)
    ensures var out := Intercept(false, requestMethod, customMessage, statusCode, data, timestamp);
      (customMessage.Some? && customMessage.value != "" ==> out.response.message == customMessage.value)
      && (customMessage.None? || customMessage.value == "" ==> out.response.message == GetDefaultMessage(requestMethod))
  {
  }
}

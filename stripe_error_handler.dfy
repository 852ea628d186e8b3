/**
 * The error classifier: turns a processor error response into the provider
 * exception it always ends in. The error code comes from the first of three
 * tables that decides it (the processor's `code`, then its `type`, then the
 * HTTP status); the message is the processor's own when it gave one.
 */
module StripeErrorHandler {
  import opened Options
  import opened Http
  import opened ErrorCodes
  import opened StripeTypes

  /** The processor `code` values the classifier recognises. */
  const CodeTable: map<string, ErrorCodeEnum> := map[
    "payment_intent_unexpected_state" := PaymentIntentUnexpectedState,
    "resource_missing" := ResourceMissing,
    "api_error" := ApiError,
    "authentication_error" := AuthenticationError,
    "rate_limit_error" := RateLimitError
  ]

  /** The processor `type` values the classifier recognises. */
  const TypeTable: map<string, ErrorCodeEnum> := map[
    "card_error" := CardError,
    "invalid_request_error" := InvalidRequest,
    "api_error" := ApiError,
    "authentication_error" := AuthenticationError,
    "rate_limit_error" := RateLimitError,
    "resource_missing" := ResourceMissing
  ]

  /** The fixed exception for an error body that could not be read at all. */
  const UnreadableBody: ProviderException := EntryException(StripeUnknownError, InternalServerError.Value())

  /**
   * The status table: the five client errors 400 to 404 keep their own
   * status, 429 becomes REQUEST_TIMEOUT, the server errors 500, 502, 503 and
   * 504 become INTERNAL_SERVER_ERROR, and every other status BAD_GATEWAY.
   */
  function MapStatusToErrorCode(status: StatusCode): (r: NamedStatus)
    ensures r.Value() == status <==> status in {400, 401, 402, 403, 404, 500}
    ensures status == 429 ==> r == RequestTimeout
    ensures status in {500, 502, 503, 504} <==> r == InternalServerError
    ensures r == BadGateway <==> status !in {400, 401, 402, 403, 404, 429, 500, 502, 503, 504}
    ensures StatusClass(r.Value()) in {4, 5}
  {
    match status
    case 400 => BadRequest
    case 401 => Unauthorized
    case 402 => PaymentRequired
    case 403 => Forbidden
    case 404 => NotFound
    case 429 => RequestTimeout
    case 500 => InternalServerError
    case 502 => InternalServerError
    case 503 => InternalServerError
    case 504 => InternalServerError
    case _ => BadGateway
  }

  /** A code decides the result when it is present and not empty. */
  predicate HasUsableCode(error: StripeError) {
    error.code.Some? && error.code.value != ""
  }

  /**
   * Whether one of the two tables decides: the code table for a usable code,
   * the type table for a present type otherwise.
   */
  predicate TableHit(error: StripeError) {
    if HasUsableCode(error) then error.code.value in CodeTable
    else error.errorType.Some? && error.errorType.value in TypeTable
  }

  /**
   * The error code: a usable `code` is looked up in the code table and, when
   * absent there, goes straight to the status table; otherwise a present
   * `type` is looked up in the type table, falling back to the status table;
   * with neither, the status table decides. The result is a status name
   * exactly when no table decided, and then it is the status table's entry
   * for the response status; a code-table hit gives that code's entry and a
   * type-table hit that type's entry.
   */
  function GetErrorCode(error: StripeError, status: StatusCode): (r: ErrorCode)
    ensures r.StatusName? <==> !TableHit(error)
    ensures r.StatusName? ==> r.status == MapStatusToErrorCode(status)
    ensures HasUsableCode(error) && error.code.value in CodeTable ==>
      r == Internal(CodeTable[error.code.value])
    ensures !HasUsableCode(error) && error.errorType.Some? && error.errorType.value in TypeTable ==>
      r == Internal(TypeTable[error.errorType.value])
  {
    if HasUsableCode(error) then
      if error.code.value in CodeTable then Internal(CodeTable[error.code.value])
      else StatusName(MapStatusToErrorCode(status))
    else if error.errorType.Some? then
      if error.errorType.value in TypeTable then Internal(TypeTable[error.errorType.value])
      else StatusName(MapStatusToErrorCode(status))
    else
      StatusName(MapStatusToErrorCode(status))
  }

  /** The processor's message when present and not empty, otherwise the unknown-error message; never empty. */
  function GetErrorMessage(error: StripeError): (m: string)
    ensures |m| > 0
    ensures error.message.Some? && error.message.value != "" ==> m == error.message.value
    ensures error.message.None? || error.message.value == "" ==> m == StripeUnknownError.Message()
  {
    if error.message.Some? && error.message.value != "" then error.message.value
    else StripeUnknownError.Message()
  }

  /**
   * handleStripeError: never returns normally, so the model returns the
   * exception it throws. `readError` is the JSON reader for the body.
   */
  function HandleStripeError(response: HttpResponse, readError: Reader<StripeErrorResponse>): (r: ProviderException)
    requires IsStandard(response.status)
    ensures readError(response.body).ParseFailed? ==> r == UnreadableBody
    ensures readError(response.body) == Parsed(None) ==> r == EntryException(StripeUnknownError, response.status)
    ensures readError(response.body).Parsed? && readError(response.body).value.Some? ==>
      var payload := readError(response.body).value.value;
      r == if payload.error.None? then EntryException(StripeUnknownError, response.status)
           else ProviderException(GetErrorCode(payload.error.value, response.status),
                                  Some(GetErrorMessage(payload.error.value)), response.status)
    ensures r.errorMessage.Some? && |r.errorMessage.value| > 0
    ensures IsStandard(r.httpStatus)
    ensures r.httpStatus == response.status || r == UnreadableBody
  {
    match readError(response.body)
    case ParseFailed => UnreadableBody
    case Parsed(None) => EntryException(StripeUnknownError, response.status)
    case Parsed(Some(payload)) =>
      if payload.error.None? then EntryException(StripeUnknownError, response.status)
      else
        var error := payload.error.value;
        ProviderException(GetErrorCode(error, response.status), Some(GetErrorMessage(error)), response.status)
  }

  /** Whenever the body carries an `error` object, the exception keeps the response's status. */
  lemma ErrorObjectKeepsStatus(response: HttpResponse, readError: Reader<StripeErrorResponse>)
    requires IsStandard(response.status)
    requires readError(response.body).Parsed? && readError(response.body).value.Some?
    requires readError(response.body).value.value.error.Some?
    ensures HandleStripeError(response, readError).httpStatus == response.status
  {
  }

  /** A usable code in the code table decides the code whatever the type and the status. */
  lemma CodeTableWins(a: StripeError, b: StripeError, s: StatusCode, t: StatusCode)
    requires HasUsableCode(a) && a.code == b.code && a.code.value in CodeTable
    ensures GetErrorCode(a, s) == GetErrorCode(b, t) == Internal(CodeTable[a.code.value])
  {
  }

  /** A usable code outside the code table goes to the status table; the type is never consulted. */
  lemma UnknownCodeSkipsType(a: StripeError, b: StripeError, s: StatusCode)
    requires HasUsableCode(a) && a.code == b.code && a.code.value !in CodeTable
    ensures GetErrorCode(a, s) == GetErrorCode(b, s) == StatusName(MapStatusToErrorCode(s))
  {
  }

  /** The message never depends on the code, the type or the status. */
  lemma MessageIgnoresCodeAndType(a: StripeError, b: StripeError)
    requires a.message == b.message
    ensures GetErrorMessage(a) == GetErrorMessage(b)
  {
  }

  /**
   * The classifier draws only on the entries its tables name: it never
   * yields GENERIC_ERROR, STRIPE_SERVICE_UNAVAILABLE, STRIPE_UNKNOWN_ERROR
   * or INVALID_REQUEST_ERROR as a table result.
   */
  lemma TableEntries(error: StripeError, status: StatusCode)
    ensures GetErrorCode(error, status).Internal? ==>
      GetErrorCode(error, status).entry in CodeTable.Values + TypeTable.Values
    ensures GetErrorCode(error, status).Internal? ==>
      GetErrorCode(error, status).entry !in {GenericError, StripeServiceUnavailable, StripeUnknownError, InvalidRequestError}
  {
  }

  /**
   * Without a usable code, a type in the type table decides the code whatever
   * the rest of the error and the status.
   */
  lemma TypeTableDecides(a: StripeError, b: StripeError, s: StatusCode, t: StatusCode)
    requires !HasUsableCode(a) && !HasUsableCode(b) && a.errorType == b.errorType
    requires a.errorType.Some? && a.errorType.value in TypeTable
    ensures GetErrorCode(a, s) == GetErrorCode(b, t) == Internal(TypeTable[a.errorType.value])
  {
  }

  /** A declined card (status 402, type card_error, no code) keeps the processor's message and status. */
  lemma CardDeclinedExample(response: HttpResponse, readError: Reader<StripeErrorResponse>)
    requires response.status == 402
    requires readError(response.body) ==
      Parsed(Some(StripeErrorResponse(Some(StripeError(Some("card_error"), Some("Card declined"), None)), None)))
    ensures HandleStripeError(response, readError) == ProviderException(Internal(CardError), Some("Card declined"), 402)
    ensures HandleStripeError(response, readError).errorCode.Rendered() == "1004"
  {
  }

  /** A missing resource (status 404, code resource_missing, no message) gets 1008 and the unknown-error message. */
  lemma ResourceMissingExample(response: HttpResponse, readError: Reader<StripeErrorResponse>)
    requires response.status == 404
    requires readError(response.body) ==
      Parsed(Some(StripeErrorResponse(Some(StripeError(None, None, Some("resource_missing"))), None)))
    ensures HandleStripeError(response, readError)
         == ProviderException(Internal(ResourceMissing), Some("UNKNOWN PROBLEM WHILE PROCESSING PAYMENT"), 404)
  {
  }
}
